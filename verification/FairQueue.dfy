/** The fair mutex: a lock key, a FIFO queue of waiting tokens and one heartbeat
    key per waiter, changed by two atomic scripts. */
module FairQueue {
  import opened Common
  import Mutex

  // The queue is a Redis list: index 0 is the newest waiter (LPUSH side), the
  // last element the oldest (RPOP side).
  datatype Store = Store(
    now: nat,
    lock: Option<Lease>,
    queue: seq<Token>,
    queueExpiry: nat,
    counter: nat,
    beats: map<Token, nat>)

  predicate BeatLive(beats: map<Token, nat>, now: nat, t: Token) {
    t in beats && now < beats[t]
  }

  // An expired list key is gone.
  function Waiting(s: Store): seq<Token> {
    if s.now < s.queueExpiry then s.queue else []
  }

  // Pops the oldest waiter while its heartbeat is gone.
  function DropDead(q: seq<Token>, beats: map<Token, nat>, now: nat): seq<Token> {
    if q == [] || BeatLive(beats, now, q[|q| - 1]) then q
    else DropDead(q[..|q| - 1], beats, now)
  }

  // LREM with count 1 scans from the newest side.
  function RemoveFirst(q: seq<Token>, t: Token): seq<Token> {
    if q == [] then [] else if q[0] == t then q[1..] else [q[0]] + RemoveFirst(q[1..], t)
  }

  // fair_acquire.lua: the new store, the status and the fence.
  function AcquireStep(s: Store, t: Token, ttl: nat, beatTtl: nat): (Store, nat, nat) {
    if Owns(s.lock, s.now, t) then
      (s.(lock := Some(Lease(t, s.now + ttl)), counter := s.counter + 1), 2, s.counter + 1)
    else if Live(s.lock, s.now) then
      (Enqueued(s, Waiting(s), t, ttl, beatTtl), 0, 0)
    else
      var q := DropDead(Waiting(s), s.beats, s.now);
      if q == [] || q[|q| - 1] == t then
        (s.(lock := Some(Lease(t, s.now + ttl)), queue := RemoveFirst(q, t), counter := s.counter + 1),
         1, s.counter + 1)
      else (Enqueued(s, q, t, ttl, beatTtl), 0, 0)
  }

  // Join the queue unless already in it, refresh the heartbeat and the list TTL.
  function Enqueued(s: Store, q: seq<Token>, t: Token, ttl: nat, beatTtl: nat): Store {
    s.(queue := if t in q then q else [t] + q,
       beats := s.beats[t := s.now + beatTtl],
       queueExpiry := s.now + ttl * 10)
  }

  // Pops the oldest side until a live waiter turns up: what is left, and who.
  function Handoff(q: seq<Token>, beats: map<Token, nat>, now: nat): (seq<Token>, Option<Token>) {
    if q == [] then ([], None)
    else if BeatLive(beats, now, q[|q| - 1]) then (q[..|q| - 1], Some(q[|q| - 1]))
    else Handoff(q[..|q| - 1], beats, now)
  }

  // fair_release.lua: true when the caller owned the lock.
  function ReleaseStep(s: Store, t: Token, ttl: nat): (Store, bool) {
    if !Owns(s.lock, s.now, t) then (s, false)
    else
      var (rest, heir) := Handoff(Waiting(s), s.beats, s.now);
      (s.(lock := if heir.Some? then Some(Lease(heir.value, s.now + ttl)) else None, queue := rest), true)
  }

  // ----------------------------------------------------------------------
  // The scripts' loops, exactly
  // ----------------------------------------------------------------------

  // What acquire discards is the maximal dead run on the oldest side.
  lemma {:induction false} DropDeadIsMaximal(q: seq<Token>, beats: map<Token, nat>, now: nat)
    ensures var r := DropDead(q, beats, now);
            && r <= q
            && (forall i :: |r| <= i < |q| ==> !BeatLive(beats, now, q[i]))
            && (r != [] ==> BeatLive(beats, now, r[|r| - 1]))
  {
    if q != [] && !BeatLive(beats, now, q[|q| - 1]) {
      DropDeadIsMaximal(q[..|q| - 1], beats, now);
    }
  }

  // Release hands off to the oldest live waiter and leaves every newer one in order.
  lemma {:induction false} HandoffIsOldestLive(q: seq<Token>, beats: map<Token, nat>, now: nat)
    ensures var (rest, heir) := Handoff(q, beats, now);
            && rest <= q
            && (heir.None? <==> forall i :: 0 <= i < |q| ==> !BeatLive(beats, now, q[i]))
            && (heir.None? ==> rest == [])
            && (heir.Some? ==>
                  && |rest| < |q| && q[|rest|] == heir.value
                  && BeatLive(beats, now, heir.value)
                  && forall i :: |rest| < i < |q| ==> !BeatLive(beats, now, q[i]))
  {
    if q != [] && !BeatLive(beats, now, q[|q| - 1]) {
      HandoffIsOldestLive(q[..|q| - 1], beats, now);
      assert q[..|q| - 1] <= q;
    }
  }

  ghost predicate NoDuplicates(q: seq<Token>) {
    forall i, j :: 0 <= i < j < |q| ==> q[i] != q[j]
  }

  lemma {:induction false} RemoveFirstKeepsOthers(q: seq<Token>, t: Token)
    requires NoDuplicates(q)
    ensures NoDuplicates(RemoveFirst(q, t))
    ensures forall u :: u in RemoveFirst(q, t) <==> u in q && u != t
  {
    if q != [] && q[0] != t {
      var rest := RemoveFirst(q[1..], t);
      RemoveFirstKeepsOthers(q[1..], t);
      assert forall u :: u in q <==> u == q[0] || u in q[1..];
      assert forall i :: 0 <= i < |rest| ==> rest[i] in rest;
      assert q[0] !in q[1..];
    } else if q != [] {
      assert forall u :: u in q <==> u == q[0] || u in q[1..];
    }
  }

  lemma {:induction false} RemoveOldest(q: seq<Token>)
    requires q != [] && NoDuplicates(q)
    ensures RemoveFirst(q, q[|q| - 1]) == q[..|q| - 1]
  {
    if |q| > 1 {
      RemoveOldest(q[1..]);
      assert q[1..][|q| - 2] == q[|q| - 1];
      assert [q[0]] + q[1..][..|q| - 2] == q[..|q| - 1];
    }
  }

  // ----------------------------------------------------------------------
  // The scripts' answers, told without the step functions
  // ----------------------------------------------------------------------

  // The first n of the queue are left when the dead are dropped from the oldest side.
  ghost predicate KeepsFirst(q: seq<Token>, beats: map<Token, nat>, now: nat, n: nat) {
    && n <= |q|
    && (n > 0 ==> q[n - 1] in beats && now < beats[q[n - 1]])
    && forall i :: n <= i < |q| ==> !(q[i] in beats && now < beats[q[i]])
  }

  // Turned away: t is in the queue, on the newest side if it was not yet, with a fresh
  // heartbeat, and the queue lives ten lease times on.
  ghost predicate QueuesUp(s: Store, v: Store, q: seq<Token>, t: Token, ttl: nat, beatTtl: nat) {
    v == s.(queue := if t in q then q else [t] + q, beats := s.beats[t := s.now + beatTtl],
            queueExpiry := s.now + 10 * ttl)
  }

  // An acquire renews for the holder and queues behind another holder. A free lock goes
  // to the caller when no live waiter is queued or the caller is the oldest of them, who
  // then leaves the queue.
  ghost predicate AcquireAnswers(s: Store, t: Token, ttl: nat, beatTtl: nat, v: Store, status: nat, fence: nat) {
    var held := s.lock.Some? && s.now < s.lock.value.expiry;
    var q := if s.now < s.queueExpiry then s.queue else [];
    if held && s.lock.value.token == t then
      status == 2 && fence == s.counter + 1 && v == s.(lock := Some(Lease(t, s.now + ttl)), counter := fence)
    else if held then status == 0 && fence == 0 && QueuesUp(s, v, q, t, ttl, beatTtl)
    else exists n: nat :: KeepsFirst(q, s.beats, s.now, n) && AcquireFree(s, q[..n], t, ttl, beatTtl, v, status, fence)
  }

  ghost predicate AcquireFree(s: Store, q: seq<Token>, t: Token, ttl: nat, beatTtl: nat, v: Store, status: nat, fence: nat) {
    if q == [] || q[|q| - 1] == t then
      && status == 1 && fence == s.counter + 1
      && v == s.(lock := Some(Lease(t, s.now + ttl)), counter := fence, queue := v.queue)
      && (q == [] ==> v.queue == [])
      && (q != [] && NoDuplicates(q) ==> v.queue == q[..|q| - 1])
    else status == 0 && fence == 0 && QueuesUp(s, v, q, t, ttl, beatTtl)
  }

  // A release by the holder gives the lock to the oldest live waiter and leaves those
  // newer queued, or frees it when there is none; by anyone else it does nothing.
  ghost predicate ReleaseAnswers(s: Store, t: Token, ttl: nat, v: Store, ok: bool) {
    var q := if s.now < s.queueExpiry then s.queue else [];
    if s.lock.Some? && s.now < s.lock.value.expiry && s.lock.value.token == t then
      ok && exists n: nat :: KeepsFirst(q, s.beats, s.now, n) && HandsOver(s, q[..n], ttl, v)
    else !ok && v == s
  }

  ghost predicate HandsOver(s: Store, q: seq<Token>, ttl: nat, v: Store) {
    v == if q == [] then s.(lock := None, queue := [])
         else s.(lock := Some(Lease(q[|q| - 1], s.now + ttl)), queue := q[..|q| - 1])
  }

  lemma FreeIsAnswered(s: Store, q: seq<Token>, t: Token, ttl: nat, beatTtl: nat)
    requires !Live(s.lock, s.now) && q == DropDead(Waiting(s), s.beats, s.now)
    ensures var (v, status, fence) := AcquireStep(s, t, ttl, beatTtl);
            AcquireFree(s, q, t, ttl, beatTtl, v, status, fence)
  {
    if q != [] && NoDuplicates(q) {
      RemoveOldest(q);
    }
  }

  lemma DropDeadKeepsFirst(q: seq<Token>, beats: map<Token, nat>, now: nat)
    ensures var r := DropDead(q, beats, now); KeepsFirst(q, beats, now, |r|) && q[..|r|] == r
  {
    DropDeadIsMaximal(q, beats, now);
  }

  lemma AcquireIsAnswered(s: Store, t: Token, ttl: nat, beatTtl: nat)
    ensures var (v, status, fence) := AcquireStep(s, t, ttl, beatTtl);
            AcquireAnswers(s, t, ttl, beatTtl, v, status, fence)
  {
    if !Live(s.lock, s.now) {
      DropDeadKeepsFirst(Waiting(s), s.beats, s.now);
      FreeIsAnswered(s, DropDead(Waiting(s), s.beats, s.now), t, ttl, beatTtl);
    }
  }

  lemma ReleaseIsAnswered(s: Store, t: Token, ttl: nat)
    ensures ReleaseAnswers(s, t, ttl, ReleaseStep(s, t, ttl).0, ReleaseStep(s, t, ttl).1)
  {
    if Owns(s.lock, s.now, t) {
      var q := Waiting(s);
      var (rest, heir) := Handoff(q, s.beats, s.now);
      HandoffIsOldestLive(q, s.beats, s.now);
      var n := if heir.Some? then |rest| + 1 else 0;
      assert KeepsFirst(q, s.beats, s.now, n);
      assert HandsOver(s, q[..n], ttl, ReleaseStep(s, t, ttl).0);
    }
  }

  // What is left of a queue is determined by the heartbeats, so the answers are.
  lemma KeepsOneWay(q: seq<Token>, beats: map<Token, nat>, now: nat, m: nat, n: nat)
    requires KeepsFirst(q, beats, now, m) && KeepsFirst(q, beats, now, n)
    ensures m == n
  {
  }

  // After a release the releaser does not hold the lock.
  lemma ReleaserIsOut(s: Store, t: Token, ttl: nat)
    requires QueueInv(s) && Owns(s.lock, s.now, t)
    ensures var v := ReleaseStep(s, t, ttl).0; !Owns(v.lock, v.now, t)
  {
    HandoffIsOldestLive(Waiting(s), s.beats, s.now);
  }

  // ----------------------------------------------------------------------
  // Runs
  // ----------------------------------------------------------------------

  datatype Op =
    | Acquire(token: Token, ttl: nat, beatTtl: nat)
    | Release(token: Token, ttl: nat)
    | Tick(d: nat)

  // The store and the fences returned by successful acquires.
  datatype Run = Run(store: Store, fences: seq<nat>)

  const Fresh: Run := Run(Store(0, None, [], 0, 0, map[]), [])

  function Step(r: Run, op: Op): Run {
    match op
    case Acquire(t, ttl, beatTtl) =>
      var (s, status, fence) := AcquireStep(r.store, t, ttl, beatTtl);
      Run(s, if status == 0 then r.fences else r.fences + [fence])
    case Release(t, ttl) => r.(store := ReleaseStep(r.store, t, ttl).0)
    case Tick(d) => r.(store := r.store.(now := r.store.now + d))
  }

  function ExecFrom(r: Run, ops: seq<Op>): Run {
    if ops == [] then r else Step(ExecFrom(r, ops[..|ops| - 1]), ops[|ops| - 1])
  }

  ghost predicate QueueInv(s: Store) {
    && NoDuplicates(Waiting(s))
    && (Live(s.lock, s.now) ==> s.lock.value.token !in Waiting(s))
  }

  ghost predicate FencesInv(r: Run) {
    && (forall i :: 0 <= i < |r.fences| ==> r.fences[i] <= r.store.counter)
    && (forall i, j :: 0 <= i < j < |r.fences| ==> r.fences[i] < r.fences[j])
  }

  lemma AcquireKeepsQueue(s: Store, t: Token, ttl: nat, beatTtl: nat)
    requires QueueInv(s)
    ensures QueueInv(AcquireStep(s, t, ttl, beatTtl).0)
  {
    if !Live(s.lock, s.now) {
      FreeAcquireKeepsQueue(s, DropDead(Waiting(s), s.beats, s.now), t, ttl, beatTtl);
    }
  }

  lemma FreeAcquireKeepsQueue(s: Store, q: seq<Token>, t: Token, ttl: nat, beatTtl: nat)
    requires QueueInv(s) && !Live(s.lock, s.now) && q == DropDead(Waiting(s), s.beats, s.now)
    ensures QueueInv(AcquireStep(s, t, ttl, beatTtl).0)
  {
    DropDeadIsMaximal(Waiting(s), s.beats, s.now);
    RemoveFirstKeepsOthers(q, t);
  }

  lemma ReleaseKeepsQueue(s: Store, t: Token, ttl: nat)
    requires QueueInv(s)
    ensures QueueInv(ReleaseStep(s, t, ttl).0)
  {
    HandoffIsOldestLive(Waiting(s), s.beats, s.now);
  }

  lemma StepKeepsInv(r: Run, op: Op)
    requires QueueInv(r.store) && FencesInv(r)
    ensures QueueInv(Step(r, op).store) && FencesInv(Step(r, op))
  {
    match op
    case Acquire(t, ttl, beatTtl) => AcquireKeepsQueue(r.store, t, ttl, beatTtl);
    case Release(t, ttl) => ReleaseKeepsQueue(r.store, t, ttl);
    case Tick(_) =>
  }

  // In every reachable state the queue has no duplicates and not the live
  // holder, and the fences returned so far strictly increase.
  lemma {:induction false} QueueIsSound(ops: seq<Op>)
    ensures QueueInv(ExecFrom(Fresh, ops).store) && FencesInv(ExecFrom(Fresh, ops))
  {
    if ops != [] {
      QueueIsSound(ops[..|ops| - 1]);
      StepKeepsInv(ExecFrom(Fresh, ops[..|ops| - 1]), ops[|ops| - 1]);
    }
  }

  // ----------------------------------------------------------------------
  // No overtaking
  // ----------------------------------------------------------------------

  // Position i of the list holds a, and b is nowhere at or beyond it.
  ghost predicate AheadAt(q: seq<Token>, a: Token, b: Token, i: int) {
    0 <= i < |q| && q[i] == a && forall j :: i <= j < |q| ==> q[j] != b
  }

  // b does not hold the lock and, while the queue key lives, a is queued with b
  // not ahead of it (b may be behind, or not queued at all).
  ghost predicate Ahead(s: Store, a: Token, b: Token) {
    && !Owns(s.lock, s.now, b)
    && (s.now < s.queueExpiry ==> exists i :: AheadAt(s.queue, a, b, i))
  }

  ghost predicate Alive(s: Store, a: Token) {
    BeatLive(s.beats, s.now, a) && s.now < s.queueExpiry
  }

  // Enqueueing puts newcomers on the newest side only.
  lemma EnqueueKeepsAhead(s: Store, q: seq<Token>, a: Token, b: Token, i: int, t: Token, ttl: nat, beatTtl: nat)
    requires AheadAt(q, a, b, i)
    ensures exists k :: AheadAt(Enqueued(s, q, t, ttl, beatTtl).queue, a, b, k)
  {
    if t in q {
      assert AheadAt(Enqueued(s, q, t, ttl, beatTtl).queue, a, b, i);
    } else {
      assert AheadAt(Enqueued(s, q, t, ttl, beatTtl).queue, a, b, i + 1);
    }
  }

  lemma AcquireKeepsAhead(s: Store, a: Token, b: Token, t: Token, ttl: nat, beatTtl: nat)
    requires QueueInv(s) && Ahead(s, a, b) && Alive(s, a) && a != b && ttl > 0
    ensures var s' := AcquireStep(s, t, ttl, beatTtl).0; Owns(s'.lock, s'.now, a) || Ahead(s', a, b)
  {
    var i :| AheadAt(s.queue, a, b, i);
    if Owns(s.lock, s.now, t) {
    } else if Live(s.lock, s.now) {
      EnqueueKeepsAhead(s, Waiting(s), a, b, i, t, ttl, beatTtl);
    } else {
      FreeAcquireKeepsAhead(s, a, b, i, t, ttl, beatTtl);
    }
  }

  // On a free lock only the oldest live waiter is granted; a is no younger than b.
  lemma FreeAcquireKeepsAhead(s: Store, a: Token, b: Token, i: int, t: Token, ttl: nat, beatTtl: nat)
    requires QueueInv(s) && AheadAt(s.queue, a, b, i) && Alive(s, a) && a != b && ttl > 0
    requires !Live(s.lock, s.now)
    ensures var s' := AcquireStep(s, t, ttl, beatTtl).0; Owns(s'.lock, s'.now, a) || Ahead(s', a, b)
  {
    var q := DropDead(Waiting(s), s.beats, s.now);
    DropDeadIsMaximal(Waiting(s), s.beats, s.now);
    assert i < |q| && AheadAt(q, a, b, i);
    if q[|q| - 1] == t {
      RemoveOldest(q);
      assert t != a ==> AheadAt(q[..|q| - 1], a, b, i);
    } else {
      EnqueueKeepsAhead(s, q, a, b, i, t, ttl, beatTtl);
    }
  }

  lemma ReleaseKeepsAhead(s: Store, a: Token, b: Token, t: Token, ttl: nat)
    requires Ahead(s, a, b) && Alive(s, a) && ttl > 0
    ensures var s' := ReleaseStep(s, t, ttl).0; Owns(s'.lock, s'.now, a) || Ahead(s', a, b)
  {
    var i :| AheadAt(s.queue, a, b, i);
    if Owns(s.lock, s.now, t) {
      var (rest, heir) := Handoff(Waiting(s), s.beats, s.now);
      HandoffIsOldestLive(Waiting(s), s.beats, s.now);
      assert BeatLive(s.beats, s.now, s.queue[i]);
      assert heir.Some? && |rest| >= i;
      if |rest| > i {
        assert AheadAt(rest, a, b, i);
      }
    }
  }

  ghost predicate PositiveTtl(op: Op) {
    match op
    case Acquire(_, ttl, _) => ttl > 0
    case Release(_, ttl) => ttl > 0
    case Tick(_) => true
  }

  lemma StepKeepsAhead(r: Run, op: Op, a: Token, b: Token)
    requires QueueInv(r.store) && Ahead(r.store, a, b) && Alive(r.store, a) && a != b && PositiveTtl(op)
    ensures var s := Step(r, op).store; Owns(s.lock, s.now, a) || Ahead(s, a, b)
  {
    match op
    case Acquire(t, ttl, beatTtl) => AcquireKeepsAhead(r.store, a, b, t, ttl, beatTtl);
    case Release(t, ttl) => ReleaseKeepsAhead(r.store, a, b, t, ttl);
    case Tick(_) =>
  }

  // From any reachable state in which a is queued and b is not ahead of it:
  // while a's heartbeat and the queue key stay unexpired and a has not had its
  // turn, no direct grant and no handoff gives b the lock.
  lemma {:induction false} NoOvertaking(past: seq<Op>, ops: seq<Op>, a: Token, b: Token)
    requires a != b && Ahead(ExecFrom(Fresh, past).store, a, b)
    requires forall k :: 0 <= k < |ops| ==> PositiveTtl(ops[k])
    requires forall k :: 0 <= k < |ops| ==> Alive(ExecFrom(ExecFrom(Fresh, past), ops[..k]).store, a)
    requires forall k :: 0 <= k <= |ops| ==>
               var s := ExecFrom(ExecFrom(Fresh, past), ops[..k]).store; !Owns(s.lock, s.now, a)
    ensures var r := ExecFrom(ExecFrom(Fresh, past), ops);
            && QueueInv(r.store) && Ahead(r.store, a, b)
            && !Owns(r.store.lock, r.store.now, b)
  {
    var start := ExecFrom(Fresh, past);
    QueueIsSound(past);
    assert ops[..|ops|] == ops;
    if ops != [] {
      var n := |ops| - 1;
      var p := ops[..n];
      assert forall k :: 0 <= k <= n ==> p[..k] == ops[..k];
      NoOvertaking(past, p, a, b);
      KeepsFences(start, p);
      StepKeepsInv(ExecFrom(start, p), ops[n]);
      StepKeepsAhead(ExecFrom(start, p), ops[n], a, b);
    }
  }

  lemma {:induction false} KeepsFences(r: Run, ops: seq<Op>)
    requires QueueInv(r.store) && FencesInv(r)
    ensures QueueInv(ExecFrom(r, ops).store) && FencesInv(ExecFrom(r, ops))
  {
    if ops != [] {
      KeepsFences(r, ops[..|ops| - 1]);
      StepKeepsInv(ExecFrom(r, ops[..|ops| - 1]), ops[|ops| - 1]);
    }
  }

  // Arrival order: a waiter turned away is queued and alive, ahead of everyone
  // who neither waits yet nor holds the lock.
  lemma ArrivalOrder(s: Store, a: Token, b: Token, ttl: nat, beatTtl: nat)
    requires QueueInv(s) && a != b && ttl > 0 && beatTtl > 0
    requires b !in Waiting(s) && !Owns(s.lock, s.now, b)
    requires AcquireStep(s, a, ttl, beatTtl).1 == 0
    ensures var s' := AcquireStep(s, a, ttl, beatTtl).0; Alive(s', a) && Ahead(s', a, b)
  {
    var s' := AcquireStep(s, a, ttl, beatTtl).0;
    DropDeadIsMaximal(Waiting(s), s.beats, s.now);
    assert a in s'.queue && b !in s'.queue;
    var i :| 0 <= i < |s'.queue| && s'.queue[i] == a;
    assert AheadAt(s'.queue, a, b, i);
  }

  // ----------------------------------------------------------------------
  // The scripts and the polling client over mutable keys
  // ----------------------------------------------------------------------

  const POLL_INTERVAL: nat := 20
  const RELEASE_TTL: nat := 30_000
  const MIN_BEAT_TTL: nat := 2_000

  datatype Error = InvalidConfig | Held | Timeout | Lost | Backend

  function BeatTtl(ttl: nat): nat {
    if ttl > MIN_BEAT_TTL then ttl else MIN_BEAT_TTL
  }

  // The lock is free and someone is queued: the script looks up a heartbeat.
  predicate NeedsPrefix(s: Store) {
    !Live(s.lock, s.now) && Waiting(s) != []
  }

  function PollAnswer(s: Store, t: Token, ttl: nat, prefix: bool, d: Mutex.Delivery): Result<nat, Error> {
    var (_, status, fence) := AcquireStep(s, t, ttl, BeatTtl(ttl));
    if d.Failed? || (!prefix && NeedsPrefix(s)) then Err(Backend)
    else if status == 0 then Err(Held)
    else Ok(fence)
  }

  // An answered poll is an acquire with a heartbeat of the lease time, two seconds at
  // least; without the prefix it fails on a free lock with a queue, changing nothing.
  ghost predicate PollAnswers(s: Store, t: Token, ttl: nat, prefix: bool, v: Store, r: Result<nat, Error>) {
    if !prefix && !Live(s.lock, s.now) && s.now < s.queueExpiry && s.queue != [] then r == Err(Backend) && v == s
    else
      var beatTtl := if ttl > 2_000 then ttl else 2_000;
      exists status: nat, fence: nat ::
        AcquireAnswers(s, t, ttl, beatTtl, v, status, fence) && r == if status == 0 then Err(Held) else Ok(fence)
  }

  lemma PollIsAnswered(s: Store, t: Token, ttl: nat, prefix: bool)
    ensures PollAnswers(s, t, ttl, prefix, AfterPoll(s, t, ttl, prefix, Mutex.Answered), PollAnswer(s, t, ttl, prefix, Mutex.Answered))
  {
    AcquireIsAnswered(s, t, ttl, BeatTtl(ttl));
  }

  // Every poll so far was turned away before the deadline.
  ghost predicate TurnedAway(seen: seq<Store>, t: Token, ttl: nat, prefix: bool, delivery: nat -> Mutex.Delivery, deadline: nat) {
    forall k :: 0 <= k < |seen| ==>
      PollAnswer(seen[k], t, ttl, prefix, delivery(k)) == Err(Held) && seen[k].now < deadline
  }

  // The store after one poll, and after others' operations.
  function AfterPoll(s: Store, t: Token, ttl: nat, prefix: bool, d: Mutex.Delivery): Store {
    if d == Mutex.Failed(false) || (!prefix && NeedsPrefix(s)) then s else AcquireStep(s, t, ttl, BeatTtl(ttl)).0
  }

  function AfterOps(s: Store, ops: seq<Op>): Store {
    if ops == [] then s else Step(Run(AfterOps(s, ops[..|ops| - 1]), []), ops[|ops| - 1]).store
  }

  // Others' operations are a run of the queue from here.
  lemma {:induction false} AfterOpsIsARun(s: Store, ops: seq<Op>, fences: seq<nat>)
    ensures AfterOps(s, ops) == ExecFrom(Run(s, fences), ops).store
  {
    if ops != [] {
      AfterOpsIsARun(s, ops[..|ops| - 1], fences);
    }
  }

  // From the store found by poll k to the one found by the next: the poll itself,
  // the poll interval, and others meanwhile.
  function Round(t: Token, ttl: nat, prefix: bool, others: nat -> seq<Op>, delivery: nat -> Mutex.Delivery): (Store, nat) -> Store {
    (s: Store, k: nat) =>
      var polled := AfterPoll(s, t, ttl, prefix, delivery(k));
      AfterOps(Slept(polled), others(k))
  }

  function Slept(s: Store): Store {
    s.(now := s.now + POLL_INTERVAL)
  }

  // The stores found by the polls that began at s0: each follows from the one before.
  ghost predicate Polls(seen: seq<Store>, s0: Store, round: (Store, nat) -> Store) {
    forall k: nat :: k < |seen| ==> FoundAt(seen, s0, round, k)
  }

  ghost predicate FoundAt(seen: seq<Store>, s0: Store, round: (Store, nat) -> Store, k: nat)
    requires k < |seen|
  {
    seen[k] == if k == 0 then s0 else round(seen[k - 1], k - 1)
  }

  // The store the next poll will find.
  function NextFound(seen: seq<Store>, s0: Store, round: (Store, nat) -> Store): Store {
    if seen == [] then s0 else round(seen[|seen| - 1], |seen| - 1)
  }

  lemma PollsGrow(seen: seq<Store>, s0: Store, round: (Store, nat) -> Store, s: Store)
    requires Polls(seen, s0, round) && s == NextFound(seen, s0, round)
    ensures Polls(seen + [s], s0, round) && NextFound(seen + [s], s0, round) == round(s, |seen|)
  {
    var all := seen + [s];
    forall k: nat | k < |all| ensures FoundAt(all, s0, round, k) {
      assert k < |seen| ==> FoundAt(seen, s0, round, k);
    }
  }

  lemma RoundFollows(past: seq<Store>, found: Store, s0: Store, polled: Store, s: Store, t: Token, ttl: nat, prefix: bool,
                     others: nat -> seq<Op>, delivery: nat -> Mutex.Delivery)
    requires polled == AfterPoll(found, t, ttl, prefix, delivery(|past|))
    requires s == AfterOps(Slept(polled), others(|past|))
    ensures s == NextFound(past + [found], s0, Round(t, ttl, prefix, others, delivery))
  {
  }

  // The polls so far, and the answer to the last of them.
  ghost predicate Polled(seen: seq<Store>, t: Token, ttl: nat, prefix: bool, delivery: nat -> Mutex.Delivery, deadline: nat,
                         answer: Result<nat, Error>) {
    && seen != [] && TurnedAway(seen[..|seen| - 1], t, ttl, prefix, delivery, deadline)
    && answer == PollAnswer(seen[|seen| - 1], t, ttl, prefix, delivery(|seen| - 1))
  }

  lemma TurnedAwayAgain(seen: seq<Store>, t: Token, ttl: nat, prefix: bool, delivery: nat -> Mutex.Delivery, deadline: nat)
    requires Polled(seen, t, ttl, prefix, delivery, deadline, Err(Held)) && seen[|seen| - 1].now < deadline
    ensures TurnedAway(seen, t, ttl, prefix, delivery, deadline)
  {
    var past := seen[..|seen| - 1];
    forall k | 0 <= k < |past|
      ensures PollAnswer(seen[k], t, ttl, prefix, delivery(k)) == Err(Held) && seen[k].now < deadline
    {
      assert past[k] == seen[k];
    }
  }

  // ----------------------------------------------------------------------
  // The call without the heartbeat prefix
  // ----------------------------------------------------------------------

  function CallStep(s: Store, op: Op): Store {
    match op
    case Acquire(t, ttl, beatTtl) => if NeedsPrefix(s) then s else AcquireStep(s, t, ttl, beatTtl).0
    case Release(t, ttl) => ReleaseStep(s, t, ttl).0
    case Tick(d) => s.(now := s.now + d)
  }

  function CallExec(s: Store, ops: seq<Op>): Store {
    if ops == [] then s else CallStep(CallExec(s, ops[..|ops| - 1]), ops[|ops| - 1])
  }

  // Once the lock is free with someone queued, nobody gets it and nothing but time
  // changes, whatever anyone calls, until the queue key expires.
  lemma {:induction false} StuckUntilQueueExpires(s: Store, ops: seq<Op>)
    requires NeedsPrefix(s) && CallExec(s, ops).now < s.queueExpiry
    ensures CallExec(s, ops) == s.(now := CallExec(s, ops).now) && s.now <= CallExec(s, ops).now
    ensures NeedsPrefix(CallExec(s, ops))
  {
    if ops != [] {
      StuckUntilQueueExpires(s, ops[..|ops| - 1]);
    }
  }

  // The only way to get stuck: the holder's lease runs out, unreleased, before the
  // queue of those waiting does.
  lemma StuckExactlyByLapse(s: Store, op: Op)
    requires !NeedsPrefix(s) && PositiveTtl(op)
    ensures NeedsPrefix(CallStep(s, op)) <==>
            && op.Tick? && Live(s.lock, s.now) && Waiting(s) != []
            && s.lock.value.expiry <= s.now + op.d < s.queueExpiry
  {
    if op.Release? {
      ReleaseLeavesNoneStuck(s, op.token, op.ttl);
    }
  }

  lemma ReleaseLeavesNoneStuck(s: Store, t: Token, ttl: nat)
    requires !NeedsPrefix(s) && ttl > 0
    ensures !NeedsPrefix(ReleaseStep(s, t, ttl).0)
  {
    var (rest, heir) := Handoff(Waiting(s), s.beats, s.now);
    HandoffIsOldestLive(Waiting(s), s.beats, s.now);
    if Owns(s.lock, s.now, t) {
      assert heir.None? ==> rest == [];
    }
  }

  // For every TTL: a holder, a waiter, and the holder's lease runs out.
  lemma StuckIsReached(ttl: nat)
    requires ttl > 0
    ensures var ops := [Op.Acquire(1, ttl, BeatTtl(ttl)), Op.Acquire(2, ttl, BeatTtl(ttl)), Tick(ttl)];
            var s := CallExec(Fresh.store, ops);
            && NeedsPrefix(s) && s.queueExpiry == 10 * ttl
            && AcquireStep(s, 2, ttl, BeatTtl(ttl)).1 == 1
  {
    var a, b, c := Op.Acquire(1, ttl, BeatTtl(ttl)), Op.Acquire(2, ttl, BeatTtl(ttl)), Tick(ttl);
    assert [a, b, c][..2] == [a, b] && [a, b][..1] == [a] && [a][..0] == [];
    var s0 := Fresh.store;
    var s1 := CallStep(s0, a);
    var s2 := CallStep(s1, b);
    assert CallExec(s0, []) == s0 && CallExec(s0, [a]) == s1 && CallExec(s0, [a, b]) == s2;
    assert CallExec(s0, [a, b, c]) == CallStep(s2, c);
    assert s2.queue == [2] && [2][..0] == [];
    var s := CallStep(s2, c);
    assert DropDead([2], s.beats, s.now) == if BeatLive(s.beats, s.now, 2) then [2] else DropDead([], s.beats, s.now);
  }

  class FairStore {
    var now: nat
    var lock: Option<Lease>
    var queue: seq<Token>
    var queueExpiry: nat
    var counter: nat
    var beats: map<Token, nat>

    constructor ()
      ensures View() == Fresh.store
    {
      now, lock, queue, queueExpiry, counter, beats := 0, None, [], 0, 0, map[];
    }

    function View(): Store
      reads this
    {
      Store(now, lock, queue, queueExpiry, counter, beats)
    }

    // The discard loop over the oldest side.
    method DiscardDead(waiting: seq<Token>) returns (q: seq<Token>)
      ensures q == DropDead(waiting, beats, now)
    {
      q := waiting;
      while |q| > 0 && !BeatLive(beats, now, q[|q| - 1])
        invariant DropDead(q, beats, now) == DropDead(waiting, beats, now)
      {
        q := q[..|q| - 1];
      }
    }

    // LPOS, LPUSH, heartbeat and queue expiry.
    method Enqueue(q: seq<Token>, t: Token, ttl: nat, beatTtl: nat)
      modifies this
      ensures View() == Enqueued(old(View()), q, t, ttl, beatTtl)
    {
      queue := if t in q then q else [t] + q;
      beats := beats[t := now + beatTtl];
      queueExpiry := now + ttl * 10;
    }

    // SET or PEXPIRE, and INCR; q is the queue from now on.
    method Grant(q: seq<Token>, t: Token, ttl: nat)
      modifies this
      ensures View() == old(View()).(lock := Some(Lease(t, now + ttl)), queue := q, counter := old(counter) + 1)
    {
      queue := q;
      lock := Some(Lease(t, now + ttl));
      counter := counter + 1;
    }

    // fair_acquire.lua
    method Acquire(t: Token, ttl: nat, beatTtl: nat) returns (status: nat, fence: nat)
      modifies this
      ensures (View(), status, fence) == AcquireStep(old(View()), t, ttl, beatTtl)
      ensures AcquireAnswers(old(View()), t, ttl, beatTtl, View(), status, fence)
    {
      AcquireIsAnswered(View(), t, ttl, beatTtl);
      if lock.Some? && lock.value.token == t && now < lock.value.expiry {
        Grant(queue, t, ttl);
        return 2, counter;
      }
      var q := if now < queueExpiry then queue else [];
      if lock.None? || lock.value.expiry <= now {
        q := DiscardDead(q);
        if |q| == 0 || q[|q| - 1] == t {
          Grant(RemoveFirst(q, t), t, ttl);
          return 1, counter;
        }
      }
      Enqueue(q, t, ttl, beatTtl);
      return 0, 0;
    }

    // fair_release.lua
    method Release(t: Token, ttl: nat) returns (ok: bool)
      modifies this
      ensures (View(), ok) == ReleaseStep(old(View()), t, ttl)
      ensures ReleaseAnswers(old(View()), t, ttl, View(), ok)
    {
      ReleaseIsAnswered(View(), t, ttl);
      if !Owns(lock, now, t) {
        return false;
      }
      lock := None;
      var q := if now < queueExpiry then queue else [];
      var n := |q|;
      var heir: Option<Token> := None;
      for i := 0 to n
        invariant |q| + i == n
        invariant Handoff(q, beats, now) == Handoff(Waiting(old(View())), beats, now)
      {
        var tok := q[|q| - 1];
        if BeatLive(beats, now, tok) {
          heir := Some(tok);
          q := q[..|q| - 1];
          break;
        }
        q := q[..|q| - 1];
      }
      queue := q;
      if heir.Some? {
        lock := Some(Lease(heir.value, now + ttl));
      }
      ok := true;
    }

    method Perform(op: Op)
      modifies this
      ensures forall fences :: Step(Run(old(View()), fences), op).store == View()
    {
      match op
      case Acquire(t, ttl, beatTtl) => var _, _ := Acquire(t, ttl, beatTtl);
      case Release(t, ttl) => var _ := Release(t, ttl);
      case Tick(d) => now := now + d;
    }

    // Other clients act; P stands for any property the scripts and the clock keep.
    method Interfere(ops: seq<Op>, ghost P: Store -> bool)
      requires Kept(P) && P(View())
      modifies this
      ensures P(View()) && now >= old(now) && View() == AfterOps(old(View()), ops)
    {
      for k := 0 to |ops|
        invariant P(View()) && now >= old(now) && View() == AfterOps(old(View()), ops[..k])
      {
        assert ops[..k + 1][..k] == ops[..k];
        ghost var r := Run(View(), []);
        Perform(ops[k]);
        assert View() == Step(r, ops[k]).store;
        TimeOnlyGrows(r, ops[k]);
      }
      assert ops[..|ops|] == ops;
    }

    // try_lock_fair_as: one poll, with or without the heartbeat prefix that the
    // script documents as its fifth argument. Status 1 or 2 is a grant.
    method Poll(t: Token, ttl: nat, prefix: bool, d: Mutex.Delivery, ghost P: Store -> bool) returns (r: Result<nat, Error>)
      requires Kept(P) && P(View())
      modifies this
      ensures P(View()) && now == old(now)
      ensures ttl < Mutex.MIN_TTL ==> r == Err(InvalidConfig) && View() == old(View())
      ensures ttl >= Mutex.MIN_TTL ==> r == PollAnswer(old(View()), t, ttl, prefix, d)
      ensures ttl >= Mutex.MIN_TTL ==> View() == AfterPoll(old(View()), t, ttl, prefix, d)
      ensures r == Err(Held) ==> t in Waiting(View()) && BeatLive(beats, now, t)
      ensures r.Ok? ==> lock == Some(Lease(t, now + ttl)) && r.value == counter
    {
      if ttl < Mutex.MIN_TTL {
        return Err(InvalidConfig);
      }
      if d == Mutex.Failed(false) {
        return Err(Backend);
      }
      if !prefix && NeedsPrefix(View()) {
        // The script fails where it would look up a waiter's heartbeat.
        return Err(Backend);
      }
      ghost var before := Run(View(), []);
      var status, fence := Acquire(t, ttl, BeatTtl(ttl));
      assert View() == Step(before, Op.Acquire(t, ttl, BeatTtl(ttl))).store;
      if d.Failed? {
        return Err(Backend);
      }
      r := if status == 1 || status == 2 then Ok(fence) else Err(Held);
    }

    method Sleep(d: nat, ghost P: Store -> bool)
      requires Kept(P) && P(View())
      modifies this
      ensures P(View()) && View() == old(View()).(now := old(now) + d)
    {
      ghost var awake := Run(View(), []);
      now := now + d;
      assert View() == Step(awake, Tick(d)).store;
    }

    // The poll interval, and others meanwhile.
    method Pause(others: seq<Op>, ghost polled: Store, ghost P: Store -> bool)
      requires Kept(P) && P(View()) && View() == polled
      modifies this
      ensures P(View()) && now >= old(now) + POLL_INTERVAL
      ensures View() == AfterOps(Slept(polled), others)
      ensures others == [] ==> View() == old(View()).(now := old(now) + 20)
    {
      Sleep(POLL_INTERVAL, P);
      Interfere(others, P);
    }

    // One poll, recorded; k of them came before.
    method PollAndRecord(t: Token, ttl: nat, prefix: bool, k: nat, delivery: nat -> Mutex.Delivery, ghost deadline: nat,
                         ghost past: seq<Store>, ghost P: Store -> bool)
      returns (answer: Result<nat, Error>, ghost seen: seq<Store>)
      requires Kept(P) && P(View()) && ttl >= Mutex.MIN_TTL && |past| == k
      requires TurnedAway(past, t, ttl, prefix, delivery, deadline)
      modifies this
      ensures P(View()) && now == old(now) && View() == AfterPoll(old(View()), t, ttl, prefix, delivery(k))
      ensures seen == past + [old(View())] && Polled(seen, t, ttl, prefix, delivery, deadline, answer)
      ensures answer == Err(Held) && now < deadline ==> TurnedAway(seen, t, ttl, prefix, delivery, deadline)
      ensures answer == Err(Held) ==> t in Waiting(View()) && BeatLive(beats, now, t)
      ensures answer.Ok? ==> lock == Some(Lease(t, now + ttl)) && answer.value == counter
      ensures answer.Err? ==> answer.error in {Held, Backend}
    {
      seen := past + [View()];
      assert seen[..k] == past;
      answer := Poll(t, ttl, prefix, delivery(k), P);
      if answer == Err(Held) && now < deadline {
        TurnedAwayAgain(seen, t, ttl, prefix, delivery, deadline);
      }
    }

    // The polling loop; seen[k] is the store at poll k, determined by the store at
    // the call and what others do. It ends at the first poll that is not merely
    // turned away in time, and with that poll's answer.
    method PollUntil(t: Token, ttl: nat, deadline: nat, prefix: bool, others: nat -> seq<Op>,
                     delivery: nat -> Mutex.Delivery, ghost P: Store -> bool)
      returns (answer: Result<nat, Error>, ghost seen: seq<Store>)
      requires Kept(P) && P(View()) && ttl >= Mutex.MIN_TTL
      modifies this
      ensures P(View()) && Polls(seen, old(View()), Round(t, ttl, prefix, others, delivery))
      ensures Polled(seen, t, ttl, prefix, delivery, deadline, answer)
      ensures answer.Ok? ==> lock == Some(Lease(t, now + ttl)) && answer.value == counter
      ensures answer == Err(Held) ==> now >= deadline && t in Waiting(View()) && BeatLive(beats, now, t)
      ensures answer.Err? ==> answer.error in {Held, Backend}
    {
      seen, answer := [], Err(Held);
      ghost var s0, round := View(), Round(t, ttl, prefix, others, delivery);
      var polls: nat := 0;
      var done := false;
      while !done
        invariant P(View()) && Polls(seen, s0, round)
        invariant !done ==> |seen| == polls && View() == NextFound(seen, s0, round)
        invariant !done ==> TurnedAway(seen, t, ttl, prefix, delivery, deadline)
        invariant done ==> Polled(seen, t, ttl, prefix, delivery, deadline, answer)
        invariant answer.Err? ==> answer.error in {Held, Backend}
        invariant done && answer.Ok? ==> lock == Some(Lease(t, now + ttl)) && answer.value == counter
        invariant done && answer == Err(Held) ==> now >= deadline && t in Waiting(View()) && BeatLive(beats, now, t)
        decreases !done, deadline - now
      {
        answer, seen, done := PollOnce(t, ttl, deadline, prefix, polls, others, delivery, s0, seen, P);
        polls := polls + 1;
      }
    }

    // One turn of the loop.
    method PollOnce(t: Token, ttl: nat, deadline: nat, prefix: bool, polls: nat, others: nat -> seq<Op>,
                    delivery: nat -> Mutex.Delivery, ghost s0: Store, ghost seen: seq<Store>, ghost P: Store -> bool)
      returns (answer: Result<nat, Error>, ghost seen': seq<Store>, done: bool)
      requires Kept(P) && P(View()) && ttl >= Mutex.MIN_TTL && |seen| == polls
      requires Polls(seen, s0, Round(t, ttl, prefix, others, delivery))
      requires View() == NextFound(seen, s0, Round(t, ttl, prefix, others, delivery))
      requires TurnedAway(seen, t, ttl, prefix, delivery, deadline)
      modifies this
      ensures P(View()) && |seen'| == polls + 1 && Polls(seen', s0, Round(t, ttl, prefix, others, delivery))
      ensures Polled(seen', t, ttl, prefix, delivery, deadline, answer)
      ensures done <==> answer != Err(Held) || old(now) >= deadline
      ensures !done ==> now > old(now) && View() == NextFound(seen', s0, Round(t, ttl, prefix, others, delivery))
      ensures !done ==> TurnedAway(seen', t, ttl, prefix, delivery, deadline)
      ensures done && answer == Err(Held) ==> now >= deadline && t in Waiting(View()) && BeatLive(beats, now, t)
      ensures answer.Ok? ==> lock == Some(Lease(t, now + ttl)) && answer.value == counter
      ensures answer.Err? ==> answer.error in {Held, Backend}
    {
      ghost var found := View();
      PollsGrow(seen, s0, Round(t, ttl, prefix, others, delivery), found);
      answer, seen' := PollAndRecord(t, ttl, prefix, polls, delivery, deadline, seen, P);
      done := answer != Err(Held) || now >= deadline;
      if !done {
        ghost var polled := View();
        Pause(others(polls), polled, P);
        RoundFollows(seen, found, s0, polled, View(), t, ttl, prefix, others, delivery);
      }
    }

    // try_lock_fair_for
    method TryLockFairFor(t: Token, ttl: nat, wait: nat, prefix: bool, others: nat -> seq<Op>,
                          delivery: nat -> Mutex.Delivery, ghost P: Store -> bool)
      returns (r: Result<FairHandle, Error>, ghost seen: seq<Store>, ghost answer: Result<nat, Error>)
      requires Kept(P) && P(View())
      modifies this
      ensures P(View())
      ensures ttl < Mutex.MIN_TTL ==> r == Err(InvalidConfig) && View() == old(View())
      ensures ttl >= Mutex.MIN_TTL ==>
                && Polls(seen, old(View()), Round(t, ttl, prefix, others, delivery))
                && Polled(seen, t, ttl, prefix, delivery, old(now) + wait, answer)
                && match answer
                   case Ok(fence) => r.Ok? && r.value.fence == fence
                   case Err(Held) => r == Err(Timeout) && now >= old(now) + wait
                   case Err(e) => r == Err(e)
      ensures r.Ok? ==> lock == Some(Lease(t, now + ttl)) && r.value.fence == counter
      ensures r.Ok? ==> fresh(r.value) && r.value.token == t && !r.value.gone
      ensures r == Err(Timeout) ==> t in Waiting(View()) && BeatLive(beats, now, t)
      ensures r.Err? ==> r.error in {InvalidConfig, Timeout, Backend}
    {
      seen, answer := [], Err(InvalidConfig);
      if ttl < Mutex.MIN_TTL {
        r := Err(InvalidConfig);
        return;
      }
      var last;
      last, seen := PollUntil(t, ttl, now + wait, prefix, others, delivery, P);
      answer := last;
      match last {
        case Ok(fence) =>
          var h := new FairHandle(t, fence);
          r := Ok(h);
        case Err(Held) => r := Err(Timeout);
        case Err(e) => r := Err(e);
      }
    }

    // release on the handle: only the first call reaches the store.
    method ReleaseHandle(h: FairHandle, d: Mutex.Delivery) returns (r: Result<(), Error>)
      modifies this, h
      ensures h.gone
      ensures old(h.gone) ==> r == Ok(()) && View() == old(View())
      ensures !old(h.gone) ==>
                var step := ReleaseStep(old(View()), h.token, RELEASE_TTL);
                if d == Mutex.Failed(false) then r == Err(Backend) && View() == old(View())
                else View() == step.0 && r == if d.Failed? then Err(Backend) else if step.1 then Ok(()) else Err(Lost)
      ensures !old(h.gone) && d.Answered? ==>
                && r == (if Owns(old(lock), old(now), h.token) then Ok(()) else Err(Lost))
                && ReleaseAnswers(old(View()), h.token, 30_000, View(), r.Ok?)
                && (old(QueueInv(View())) ==> !Owns(lock, now, h.token))
    {
      if h.gone {
        return Ok(());
      }
      h.gone := true;
      if QueueInv(View()) && Owns(lock, now, h.token) {
        ReleaserIsOut(View(), h.token, RELEASE_TTL);
      }
      if d == Mutex.Failed(false) {
        return Err(Backend);
      }
      var ok := Release(h.token, RELEASE_TTL);
      if d.Failed? {
        return Err(Backend);
      }
      r := if ok then Ok(()) else Err(Lost);
    }
  }

  // The granted handle, with its release flag.
  class FairHandle {
    const token: Token
    const fence: nat
    var gone: bool

    constructor (token: Token, fence: nat)
      ensures this.token == token && this.fence == fence && !gone
    {
      this.token, this.fence, gone := token, fence, false;
    }
  }

  // P survives every script call and clock tick.
  ghost predicate Kept(P: Store -> bool) {
    forall r: Run, op: Op {:trigger Step(r, op)} :: P(r.store) ==> P(Step(r, op).store)
  }

  lemma TimeOnlyGrows(r: Run, op: Op)
    ensures Step(r, op).store.now >= r.store.now
  {
  }
}
