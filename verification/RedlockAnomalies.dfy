/** Where Redlock's promises stop: runs of the same protocol that show the
    hypotheses of the safety theorems are needed. */
module RedlockAnomalies {
  import opened Common
  import opened Redlock
  import Mutex

  lemma Do(P: World -> bool, ok: Action -> bool, s: World, a: Action) returns (s': World)
    requires Closed(P, ok) && P(s) && ok(a) && Enabled(s, a)
    ensures s' == Next(s, a) && P(s')
  {
    s' := Next(s, a);
  }

  lemma Starts(P: World -> bool, ok: Action -> bool, s: World, t: Token, ttl: nat) returns (s': World)
    requires Closed(P, ok) && P(s) && ok(Begin(t, ttl)) && Enabled(s, Begin(t, ttl))
    ensures P(s') && s' == s.(clients := s.clients[t := Client(ttl, Acquiring(s.now, 0, {}))])
  {
    s' := Do(P, ok, s, Begin(t, ttl));
  }

  lemma Waits(P: World -> bool, ok: Action -> bool, s: World, d: nat) returns (s': World)
    requires Closed(P, ok) && P(s) && ok(Tick(d))
    ensures P(s') && s' == s.(now := s.now + d)
  {
    s' := Do(P, ok, s, Tick(d));
  }

  lemma QuorumConcludes(P: World -> bool, ok: Action -> bool, s: World, t: Token) returns (s': World)
    requires Closed(P, ok) && P(s) && ok(Conclude(t)) && Enabled(s, Conclude(t))
    requires |PhaseOf(s, t).acquired| >= Quorum(N(s)) && InBudget(PhaseOf(s, t).start, s.now, s.clients[t].ttl)
    ensures P(s')
    ensures var c := s.clients[t];
            s' == s.(clients := s.clients[t := Client(c.ttl, Passed(c.phase.start, c.phase.acquired))])
  {
    s' := Do(P, ok, s, Conclude(t));
  }

  lemma Allocates(P: World -> bool, ok: Action -> bool, s: World, t: Token) returns (s': World)
    requires Closed(P, ok) && P(s) && ok(Allocate(t, true)) && Enabled(s, Allocate(t, true))
    ensures P(s')
    ensures var c := s.clients[t];
            var deadline := c.phase.start + c.ttl;
            s' == s.(allocator := s.allocator + 1,
                     clients := s.clients[t := Client(c.ttl, Claimed(s.allocator + 1, deadline, c.phase.acquired))],
                     log := s.log + [Grant(t, s.allocator + 1, s.now, deadline, c.phase.acquired)])
  {
    s' := Do(P, ok, s, Allocate(t, true));
  }

  // The first k nodes hold l.
  function Overwritten(nodes: seq<Option<Lease>>, k: nat, l: Option<Lease>): (r: seq<Option<Lease>>)
    ensures |r| == |nodes|
  {
    seq(|nodes|, j requires 0 <= j < |nodes| => if j < k then l else nodes[j])
  }

  lemma OverwrittenNext(nodes: seq<Option<Lease>>, k: nat, l: Option<Lease>)
    requires k < |nodes|
    ensures Overwritten(nodes, k, l)[k := l] == Overwritten(nodes, k + 1, l)
  {
  }

  lemma RangeNext(k: nat)
    ensures Range(k + 1) == Range(k) + {k}
  {
  }

  // Token t, entered in s, has walked the first k nodes of a free ring.
  function Walked(s: World, t: Token, k: nat): World
    requires t in s.clients
  {
    var ttl := s.clients[t].ttl;
    s.(nodes := Overwritten(s.nodes, k, Some(Lease(t, s.now + ttl))),
       clients := s.clients[t := Client(ttl, Acquiring(s.now, k, Range(k)))])
  }

  lemma WalkedNext(s: World, t: Token, k: nat)
    requires t in s.clients && k < N(s) && !Live(s.nodes[k], s.now)
    ensures Enabled(Walked(s, t, k), AcquireNode(t, true))
    ensures AfterAcquireNode(Walked(s, t, k), t, true) == Walked(s, t, k + 1)
  {
    var w, l := Walked(s, t, k), Lease(t, s.now + s.clients[t].ttl);
    OverwrittenNext(s.nodes, k, Some(l));
    RangeNext(k);
    assert LockAfterAcquire(w.nodes[k], w.now, t, w.clients[t].ttl) == Some(l);
  }

  lemma {:induction false} FreeWalk(P: World -> bool, ok: Action -> bool, s: World, t: Token, k: nat)
    requires Closed(P, ok) && P(s) && k <= N(s) && ok(AcquireNode(t, true))
    requires t in s.clients && s.clients[t].phase == Acquiring(s.now, 0, {})
    requires forall i :: 0 <= i < N(s) ==> !Live(s.nodes[i], s.now)
    ensures P(Walked(s, t, k))
  {
    if k == 0 {
      assert Walked(s, t, 0).nodes == s.nodes;
      assert Walked(s, t, 0).clients == s.clients;
    } else {
      FreeWalk(P, ok, s, t, k - 1);
      WalkedNext(s, t, k - 1);
      assert P(Next(Walked(s, t, k - 1), AcquireNode(t, true)));
    }
  }

  // An undisturbed round over a free ring: token t reaches quorum everywhere.
  lemma FreeRound(P: World -> bool, ok: Action -> bool, s: World, t: Token, ttl: nat) returns (s': World)
    requires Closed(P, ok) && P(s) && N(s) > 0
    requires ok(Begin(t, ttl)) && ok(AcquireNode(t, true)) && ok(Conclude(t))
    requires t !in s.clients && ttl >= Mutex.MIN_TTL
    requires forall i :: 0 <= i < N(s) ==> !Live(s.nodes[i], s.now)
    ensures P(s')
    ensures s' == s.(nodes := Overwritten(s.nodes, N(s), Some(Lease(t, s.now + ttl))),
                     clients := s.clients[t := Client(ttl, Passed(s.now, Range(N(s))))])
  {
    var s1 := Starts(P, ok, s, t, ttl);
    FreeWalk(P, ok, s1, t, N(s));
    s' := QuorumConcludes(P, ok, Walked(s1, t, N(s)), t);
  }

  // Round 0 has renewed the first k nodes of a ring that is all t's.
  function Renewed(s: World, t: Token, ttl: nat, heard: bool, k: nat): World {
    s.(nodes := Overwritten(s.nodes, k, Some(Lease(t, s.now + ttl))),
       rounds := map[0 := Round(t, ttl, s.now, k, Answering(heard, k))])
  }

  function Answering(heard: bool, k: nat): set<nat> {
    if heard then Range(k) else {}
  }

  lemma RenewedNext(s: World, t: Token, ttl: nat, heard: bool, k: nat)
    requires t in s.clients && k < N(s) && Owns(s.nodes[k], s.now, t)
    ensures Enabled(Renewed(s, t, ttl, heard, k), RenewNode(0, heard))
    ensures AfterRenewNode(Renewed(s, t, ttl, heard, k), 0, heard) == Renewed(s, t, ttl, heard, k + 1)
  {
    var w, l := Renewed(s, t, ttl, heard, k), Lease(t, s.now + ttl);
    OverwrittenNext(s.nodes, k, Some(l));
    RangeNext(k);
    RenewalAnswers(w, t, ttl, k, heard);
  }

  lemma RenewalAnswers(w: World, t: Token, ttl: nat, k: nat, heard: bool)
    requires t in w.clients && k < N(w) && Owns(w.nodes[k], w.now, t)
    requires 0 in w.rounds && w.rounds[0].token == t && w.rounds[0].ttl == ttl && w.rounds[0].next == k
    requires w.rounds.Keys == {0}
    ensures var q := w.rounds[0];
            AfterRenewNode(w, 0, heard) ==
            w.(nodes := w.nodes[k := Some(Lease(t, w.now + ttl))],
               rounds := map[0 := Round(t, ttl, q.start, k + 1, if heard then q.renewed + {k} else q.renewed)])
  {
    assert AfterRenewNode(w, 0, heard).rounds.Keys == {0};
  }

  lemma {:induction false} RenewalWalk(P: World -> bool, ok: Action -> bool, s: World, t: Token, ttl: nat, heard: bool, k: nat)
    requires Closed(P, ok) && P(s) && k <= N(s) && ok(RenewNode(0, heard))
    requires t in s.clients && s.rounds == map[0 := Round(t, ttl, s.now, 0, {})]
    requires forall i :: 0 <= i < N(s) ==> Owns(s.nodes[i], s.now, t)
    ensures P(Renewed(s, t, ttl, heard, k))
  {
    if k == 0 {
      assert Renewed(s, t, ttl, heard, 0).nodes == s.nodes;
    } else {
      RenewalWalk(P, ok, s, t, ttl, heard, k - 1);
      RenewedNext(s, t, ttl, heard, k - 1);
      assert P(Next(Renewed(s, t, ttl, heard, k - 1), RenewNode(0, heard)));
    }
  }

  // After a renewal round over a ring that is all t's: every node has the new
  // expiry; the claim has moved only if the answers came back.
  function FullyRenewed(s: World, t: Token, ttl: nat, heard: bool): World
    requires t in s.clients && s.clients[t].phase.Claimed?
  {
    var c := s.clients[t];
    s.(nodes := Overwritten(s.nodes, N(s), Some(Lease(t, s.now + ttl))),
       mixed := s.mixed || ttl != c.ttl,
       clients := if heard && s.now + ttl > c.phase.deadline
                  then s.clients[t := Client(c.ttl, Claimed(c.phase.fence, s.now + ttl, Range(N(s))))]
                  else s.clients)
  }

  lemma FullRenewal(P: World -> bool, ok: Action -> bool, s: World, t: Token, ttl: nat, heard: bool)
    returns (s': World)
    requires Closed(P, ok) && P(s) && N(s) > 0
    requires ok(BeginRenewal(0, t, ttl)) && ok(RenewNode(0, heard)) && ok(EndRenewal(0))
    requires t in s.clients && s.clients[t].phase.Claimed? && s.rounds == map[] && ttl >= Mutex.MIN_TTL
    requires forall i :: 0 <= i < N(s) ==> Owns(s.nodes[i], s.now, t)
    ensures P(s') && s' == FullyRenewed(s, t, ttl, heard)
  {
    var s1 := RenewalStarts(P, ok, s, t, ttl);
    RenewalWalk(P, ok, s1, t, ttl, heard, N(s));
    s' := RenewalEnds(P, ok, Renewed(s1, t, ttl, heard, N(s)));
  }

  lemma RenewalStarts(P: World -> bool, ok: Action -> bool, s: World, t: Token, ttl: nat) returns (s': World)
    requires Closed(P, ok) && P(s) && ok(BeginRenewal(0, t, ttl)) && Enabled(s, BeginRenewal(0, t, ttl))
    requires s.rounds == map[]
    ensures P(s')
    ensures s' == s.(rounds := map[0 := Round(t, ttl, s.now, 0, {})], mixed := s.mixed || ttl != s.clients[t].ttl)
  {
    s' := Do(P, ok, s, BeginRenewal(0, t, ttl));
  }

  lemma RenewalEnds(P: World -> bool, ok: Action -> bool, s: World) returns (s': World)
    requires Closed(P, ok) && P(s) && ok(EndRenewal(0)) && Enabled(s, EndRenewal(0))
    requires s.rounds.Keys == {0}
    ensures P(s')
    ensures var q := s.rounds[0];
            var p := PhaseOf(s, q.token);
            s' == s.(rounds := map[],
                     clients := if p.Claimed? && |q.renewed| >= Quorum(N(s)) && q.start + q.ttl > p.deadline
                                then s.clients[q.token := Client(s.clients[q.token].ttl, Claimed(p.fence, q.start + q.ttl, q.renewed))]
                                else s.clients)
  {
    s' := Do(P, ok, s, EndRenewal(0));
    assert s.rounds - {0} == map[];
  }

  // ----------------------------------------------------------------------
  // Renewals with another TTL
  // ----------------------------------------------------------------------

  // Every acquisition uses ttl, every renewal ttl or ttl2.
  predicate UsesTtls(acts: seq<Action>, ttl: nat, ttl2: nat) {
    forall k :: 0 <= k < |acts| ==> TtlOk(acts[k], ttl, ttl2)
  }

  ghost predicate Exclusive(s: World) {
    forall t, u :: Open(s, t) && Open(s, u) ==> t == u
  }

  lemma OneTtlStep(s: World, a: Action, ttl: nat)
    requires TtlOk(a, ttl, ttl) && !s.mixed
    requires forall t :: t in s.clients ==> s.clients[t].ttl == ttl
    ensures !Next(s, a).mixed
    ensures forall t :: t in Next(s, a).clients ==> Next(s, a).clients[t].ttl == ttl
  {
    forall t | t in Next(s, a).clients ensures Next(s, a).clients[t].ttl == ttl {
      if t in s.clients {
        OthersKeepTheirPhase(s, a, t);
      }
    }
  }

  lemma {:induction false} OneTtlNeverMixes(n: nat, acts: seq<Action>, ttl: nat)
    requires UsesTtls(acts, ttl, ttl)
    ensures var s := Exec(Init(n), acts);
            !s.mixed && forall t :: t in s.clients ==> s.clients[t].ttl == ttl
  {
    if acts != [] {
      var s, a := Exec(Init(n), acts[..|acts| - 1]), acts[|acts| - 1];
      OneTtlNeverMixes(n, acts[..|acts| - 1], ttl);
      OneTtlStep(s, a, ttl);
    }
  }

  predicate TtlOk(a: Action, ttl: nat, ttl2: nat) {
    && (a.Begin? ==> a.ttl == ttl)
    && (a.BeginRenewal? ==> a.ttl == ttl || a.ttl == ttl2)
  }

  // A renewal that leaves the leases shorter than the claim lets a second
  // client reach quorum inside the first one's window.
  lemma OtherTtlDoubleClaims(n: nat, P: World -> bool, ok: Action -> bool, ttl: nat, ttl2: nat) returns (s: World)
    requires n > 0
    requires ttl >= Mutex.MIN_TTL && ttl2 >= Mutex.MIN_TTL && ttl2 != ttl
    requires forall a :: TtlOk(a, ttl, ttl2) ==> ok(a)
    requires Closed(P, ok) && P(Init(n))
    ensures P(s) && Open(s, 1) && Open(s, 2)
  {
    var low := if ttl2 > ttl then ttl else ttl2;
    var s1 := ShortenedClaim(n, P, ok, ttl, ttl2, low);
    var s2 := Waits(P, ok, s1, low);
    var s3 := FreeRound(P, ok, s2, 2, ttl);
    s := Allocates(P, ok, s3, 2);
  }

  // Token 1 claims a free ring; its claim outlasts its leases, which are low.
  lemma ShortenedClaim(n: nat, P: World -> bool, ok: Action -> bool, ttl: nat, ttl2: nat, low: nat) returns (s: World)
    requires n > 0
    requires ttl >= Mutex.MIN_TTL && ttl2 >= Mutex.MIN_TTL && ttl2 != ttl
    requires low == if ttl2 > ttl then ttl else ttl2
    requires forall a :: TtlOk(a, ttl, ttl2) ==> ok(a)
    requires Closed(P, ok) && P(Init(n))
    ensures P(s) && N(s) == n && s.clients.Keys == {1}
    ensures Open(s, 1) && s.now + low < PhaseOf(s, 1).deadline
    ensures forall i :: 0 <= i < n ==> !Live(s.nodes[i], s.now + low)
  {
    var s1 := FirstClaim(n, P, ok, ttl, 0);
    if ttl2 > ttl {
      s1 := LongRenewal(P, ok, s1, ttl2);
    }
    s := ShortRenewal(P, ok, s1, low);
  }

  // A heard renewal moves token 1's claim to its end, and every lease with it.
  lemma LongRenewal(P: World -> bool, ok: Action -> bool, s: World, long: nat) returns (s': World)
    requires Closed(P, ok) && P(s) && N(s) > 0 && long >= Mutex.MIN_TTL
    requires ok(BeginRenewal(0, 1, long)) && ok(RenewNode(0, true)) && ok(EndRenewal(0))
    requires s.clients.Keys == {1} && s.clients[1].phase.Claimed? && s.rounds == map[]
    requires s.now + long > s.clients[1].phase.deadline
    requires forall i :: 0 <= i < N(s) ==> Owns(s.nodes[i], s.now, 1)
    ensures P(s') && N(s') == N(s) && s'.now == s.now && s'.rounds == map[]
    ensures s'.clients.Keys == {1} && s'.clients[1].phase.Claimed? && s'.clients[1].phase.deadline == s.now + long
    ensures forall i :: 0 <= i < N(s) ==> Owns(s'.nodes[i], s.now, 1)
  {
    s' := FullRenewal(P, ok, s, 1, long, true);
  }

  // An unheard renewal leaves token 1's claim with leases that end at low.
  lemma ShortRenewal(P: World -> bool, ok: Action -> bool, s: World, low: nat) returns (s': World)
    requires Closed(P, ok) && P(s) && N(s) > 0 && low >= Mutex.MIN_TTL
    requires ok(BeginRenewal(0, 1, low)) && ok(RenewNode(0, false)) && ok(EndRenewal(0))
    requires s.clients.Keys == {1} && s.clients[1].phase.Claimed? && s.rounds == map[]
    requires forall i :: 0 <= i < N(s) ==> Owns(s.nodes[i], s.now, 1)
    ensures P(s') && N(s') == N(s) && s'.now == s.now && s'.clients == s.clients
    ensures forall i :: 0 <= i < N(s) ==> !Live(s'.nodes[i], s.now + low)
  {
    s' := FullRenewal(P, ok, s, 1, low, false);
  }

  // Token 1 claims the fresh ring, and some time passes.
  lemma FirstClaim(n: nat, P: World -> bool, ok: Action -> bool, ttl: nat, now: nat) returns (s: World)
    requires n > 0 && ttl >= Mutex.MIN_TTL && Closed(P, ok) && P(Init(n))
    requires ok(Begin(1, ttl)) && ok(AcquireNode(1, true)) && ok(Conclude(1)) && ok(Allocate(1, true)) && ok(Tick(now))
    ensures P(s)
    ensures s == World(now, Overwritten(Init(n).nodes, n, Some(Lease(1, ttl))),
                       map[1 := Client(ttl, Claimed(1, ttl, Range(n)))], map[], 1,
                       [Grant(1, 1, 0, ttl, Range(n))], false, false)
  {
    var s1 := FreeRound(P, ok, Init(n), 1, ttl);
    var s2 := Allocates(P, ok, s1, 1);
    s := Waits(P, ok, s2, now);
  }

  // On a ring of any size, exclusion survives every run whose renewals use ttl
  // or ttl2 exactly when the two are the same.
  lemma ExclusiveIffOneTtl(n: nat, ttl: nat, ttl2: nat)
    requires n > 0 && ttl >= Mutex.MIN_TTL && ttl2 >= Mutex.MIN_TTL
    ensures (forall acts :: UsesTtls(acts, ttl, ttl2) ==> Exclusive(Exec(Init(n), acts))) <==> ttl2 == ttl
  {
    if ttl2 == ttl {
      forall acts | UsesTtls(acts, ttl, ttl2) ensures Exclusive(Exec(Init(n), acts)) {
        OneTtlNeverMixes(n, acts, ttl);
        forall t, u | Open(Exec(Init(n), acts), t) && Open(Exec(Init(n), acts), u) ensures t == u {
          MutualExclusion(n, acts, t, u);
        }
      }
    } else {
      var ok := a => TtlOk(a, ttl, ttl2);
      ReachableIsClosed(n, ok);
      var s := OtherTtlDoubleClaims(n, w => Reachable(n, ok, w), ok, ttl, ttl2);
      var acts :| Reaches(n, acts, ok, s);
      assert UsesTtls(acts, ttl, ttl2) && !Exclusive(Exec(Init(n), acts));
    }
  }

  // ----------------------------------------------------------------------
  // A fence allocated late
  // ----------------------------------------------------------------------

  // The code does not look at the clock again after allocating: a client that
  // stalls between the two gets a fence newer than the open claim's, for a
  // window that has already closed.
  lemma LateFenceOvertakes(n: nat, ttl: nat) returns (acts: seq<Action>)
    requires n > 0 && ttl >= Mutex.MIN_TTL
    ensures var s := Exec(Init(n), acts);
            && UsesTtls(acts, ttl, ttl) && !s.delayed
            && Open(s, 2) && !Open(s, 1) && PhaseOf(s, 1).Claimed?
            && |s.log| == 2 && s.log[1].fence == PhaseOf(s, 1).fence > PhaseOf(s, 2).fence
            && InTime(s.log[0]) && !InTime(s.log[1])
  {
    var ok := (a: Action) => TtlOk(a, ttl, ttl);
    ReachableIsClosed(n, ok);
    var s := LateFenceRun(n, w => Reachable(n, ok, w), ok, ttl);
    acts :| Reaches(n, acts, ok, s);
  }

  lemma LateFenceRun(n: nat, P: World -> bool, ok: Action -> bool, ttl: nat) returns (s: World)
    requires n > 0 && ttl >= Mutex.MIN_TTL && Closed(P, ok) && P(Init(n))
    requires forall a :: TtlOk(a, ttl, ttl) ==> ok(a)
    ensures P(s) && !s.delayed
    ensures Open(s, 2) && !Open(s, 1) && PhaseOf(s, 1).Claimed?
    ensures |s.log| == 2 && s.log[1].fence == PhaseOf(s, 1).fence > PhaseOf(s, 2).fence
    ensures InTime(s.log[0]) && !InTime(s.log[1])
  {
    var s1 := FreeRound(P, ok, Init(n), 1, ttl);
    var s2 := Waits(P, ok, s1, ttl);
    var s3 := FreeRound(P, ok, s2, 2, ttl);
    var s4 := Allocates(P, ok, s3, 2);
    s := Allocates(P, ok, s4, 1);
  }

  // ----------------------------------------------------------------------
  // An acquire command that executes late
  // ----------------------------------------------------------------------

  // Token t, gone and still on every node, releases the first k.
  lemma {:induction false} ReleaseWalk(P: World -> bool, ok: Action -> bool, s: World, t: Token, k: nat)
    requires Closed(P, ok) && P(s) && k <= N(s) && forall i :: ok(ReleaseNode(t, i))
    requires t in s.clients && s.clients[t].phase.Gone?
    requires forall i :: 0 <= i < N(s) ==> Owns(s.nodes[i], s.now, t)
    ensures P(s.(nodes := Overwritten(s.nodes, k, None)))
  {
    var w := s.(nodes := Overwritten(s.nodes, k, None));
    if k == 0 {
      assert w.nodes == s.nodes;
    } else {
      ReleaseWalk(P, ok, s, t, k - 1);
      OverwrittenNext(s.nodes, k - 1, None);
      var w1 := s.(nodes := Overwritten(s.nodes, k - 1, None));
      assert Released(w1, k - 1, t) == w.nodes;
      var _ := Do(P, ok, w1, ReleaseNode(t, k - 1));
    }
  }

  // Token t's timed-out acquire commands reach the first k nodes of a free ring.
  lemma {:induction false} LateWalk(P: World -> bool, ok: Action -> bool, s: World, t: Token, k: nat)
    requires Closed(P, ok) && P(s) && 0 < k <= N(s) && forall i :: ok(LateAcquire(t, i))
    requires t in s.clients
    requires forall i :: 0 <= i < N(s) ==> !Live(s.nodes[i], s.now)
    ensures P(s.(nodes := Overwritten(s.nodes, k, Some(Lease(t, s.now + s.clients[t].ttl))), delayed := true))
  {
    var l := Some(Lease(t, s.now + s.clients[t].ttl));
    var w := s.(nodes := Overwritten(s.nodes, k, l), delayed := true);
    var w1 := s.(nodes := Overwritten(s.nodes, k - 1, l), delayed := k > 1 || s.delayed);
    if k == 1 {
      assert w1.nodes == s.nodes;
      assert w1 == s;
    } else {
      LateWalk(P, ok, s, t, k - 1);
    }
    OverwrittenNext(s.nodes, k - 1, l);
    assert Acquired(w1, k - 1, t, s.clients[t].ttl) == w.nodes;
    var _ := Do(P, ok, w1, LateAcquire(t, k - 1));
  }

  // Token 1 claims and runs out, token 2 claims and releases.
  lemma TwoClaims(n: nat, P: World -> bool, ok: Action -> bool, ttl: nat) returns (s: World)
    requires n > 0 && ttl >= Mutex.MIN_TTL && Closed(P, ok) && P(Init(n))
    requires forall a :: TtlOk(a, ttl, ttl) ==> ok(a)
    ensures P(s) && N(s) == n && s.now == ttl && s.rounds == map[] && !s.delayed && !s.mixed
    ensures s.clients == map[1 := Client(ttl, Claimed(1, ttl, Range(n))), 2 := Client(ttl, Claimed(2, ttl + ttl, Range(n)))]
    ensures s.log == [Grant(1, 1, 0, ttl, Range(n)), Grant(2, 2, ttl, ttl + ttl, Range(n))]
    ensures forall i :: 0 <= i < n ==> Owns(s.nodes[i], s.now, 2)
  {
    var s1 := FirstClaim(n, P, ok, ttl, ttl);
    var s2 := FreeRound(P, ok, s1, 2, ttl);
    s := Allocates(P, ok, s2, 2);
    assert s.nodes == Overwritten(s1.nodes, n, Some(Lease(2, ttl + ttl)));
  }

  // Token 2 releases every node; token 1's timed-out commands arrive at last, and
  // its next renewal finds a quorum again.
  lemma Reopens(P: World -> bool, ok: Action -> bool, s: World, ttl: nat) returns (s': World)
    requires Closed(P, ok) && P(s) && ttl >= Mutex.MIN_TTL && N(s) > 0
    requires forall a :: TtlOk(a, ttl, ttl) ==> ok(a)
    requires s.now == ttl && s.rounds == map[]
    requires s.clients.Keys == {1, 2} && s.clients[1] == Client(ttl, Claimed(1, ttl, Range(N(s))))
    requires s.clients[2].phase.Claimed?
    requires forall i :: 0 <= i < N(s) ==> Owns(s.nodes[i], s.now, 2)
    ensures P(s') && s'.log == s.log && Open(s', 1) && PhaseOf(s', 1).fence == 1
  {
    var s1 := Do(P, ok, s, Release(2));
    ReleaseWalk(P, ok, s1, 2, N(s));
    var s2 := s1.(nodes := Overwritten(s1.nodes, N(s), None));
    LateWalk(P, ok, s2, 1, N(s));
    var s3 := s2.(nodes := Overwritten(s2.nodes, N(s), Some(Lease(1, s2.now + ttl))), delayed := true);
    s' := FullRenewal(P, ok, s3, 1, ttl, true);
  }

  // On every ring and for every TTL: both fences were allocated in time, and the
  // older one's claim is open after the newer one's was released.
  lemma DelayedAcquireReopens(n: nat, ttl: nat) returns (acts: seq<Action>)
    requires n > 0 && ttl >= Mutex.MIN_TTL
    ensures var s := Exec(Init(n), acts);
            && UsesTtls(acts, ttl, ttl) && AllInTime(s)
            && Open(s, 1) && |s.log| == 2 && s.log[1].fence > PhaseOf(s, 1).fence
  {
    var ok := (a: Action) => TtlOk(a, ttl, ttl);
    ReachableIsClosed(n, ok);
    var P := w => Reachable(n, ok, w);
    var s1 := TwoClaims(n, P, ok, ttl);
    var s2 := Reopens(P, ok, s1, ttl);
    acts :| Reaches(n, acts, ok, s2);
  }

  // ----------------------------------------------------------------------
  // When the open claim has the newest fence
  // ----------------------------------------------------------------------

  ghost predicate AllInTime(s: World) {
    forall j :: 0 <= j < |s.log| ==> InTime(s.log[j])
  }

  // No fence ever allocated is newer than an open claim's.
  ghost predicate OpenIsNewest(s: World) {
    forall t, j :: Open(s, t) && 0 <= j < |s.log| ==> s.log[j].fence <= s.clients[t].phase.fence
  }

  // Runs under one TTL, with or without late fences and late acquire commands.
  ghost predicate Admitted(n: nat, acts: seq<Action>, ttl: nat, lateFences: bool, lateAcquires: bool) {
    && UsesTtls(acts, ttl, ttl)
    && (lateFences || AllInTime(Exec(Init(n), acts)))
    && (lateAcquires || !Exec(Init(n), acts).delayed)
  }

  // On every ring and for every TTL, open claims have the newest fence in all
  // those runs exactly when neither is admitted.
  lemma NewestIffPunctual(n: nat, ttl: nat, lateFences: bool, lateAcquires: bool)
    requires n > 0 && ttl >= Mutex.MIN_TTL
    ensures (forall acts :: Admitted(n, acts, ttl, lateFences, lateAcquires) ==> OpenIsNewest(Exec(Init(n), acts)))
            <==> !lateFences && !lateAcquires
  {
    if lateFences {
      var acts := LateFenceOvertakes(n, ttl);
      assert Admitted(n, acts, ttl, lateFences, lateAcquires) && !OpenIsNewest(Exec(Init(n), acts));
    } else if lateAcquires {
      var acts := DelayedAcquireReopens(n, ttl);
      assert Admitted(n, acts, ttl, lateFences, lateAcquires) && !OpenIsNewest(Exec(Init(n), acts));
    } else {
      forall acts | Admitted(n, acts, ttl, false, false) ensures OpenIsNewest(Exec(Init(n), acts)) {
        OneTtlNeverMixes(n, acts, ttl);
        forall t, j | Open(Exec(Init(n), acts), t) && 0 <= j < |Exec(Init(n), acts).log|
          ensures Exec(Init(n), acts).log[j].fence <= Exec(Init(n), acts).clients[t].phase.fence
        {
          OpenClaimHasNewestFence(n, acts, t, j);
        }
      }
    }
  }
}
