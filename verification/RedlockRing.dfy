/** The Redlock client calls over mutable node stores: the acquisition round
    with its rollback, the renewal round and the release loop, each with other
    clients acting between any two node visits. Every call is shown to be a
    sequence of protocol steps: it keeps every property those steps keep. */
module RedlockRing {
  import opened Common
  import opened Redlock
  import opened RedlockRounds
  import Mutex

  datatype Error = InvalidConfig | Held | Lost | Backend

  // How the acquisition round begun in w is answered: refused without a quorum of
  // grants or over budget, else as the allocator answers.
  ghost predicate Judged(w: World, seen: seq<World>, judged: World, t: Token, ttl: nat, env: Environment, r: Result<nat, Error>) {
    && Visits(w, seen, t, env, VisitActions(t, env))
    && judged == AfterOthers(AfterVisits(w, seen, VisitActions(t, env)), env.others(|seen|), t)
    && w.now <= judged.now
    && if |Granting(seen, t, env)| < Quorum(N(w)) || !InBudget(w.now, judged.now, ttl) then r == Err(Held)
       else if env.delivery(N(w)).Answered? then r.Ok?
       else r == Err(Backend)
  }

  lemma RoundIsJudged(w: World, seen: seq<World>, acquired: seq<nat>, judged: World, t: Token, ttl: nat, env: Environment,
                      r: Result<nat, Error>)
    requires Watched(w, seen, t, N(w), acquired, env) && |SetOf(acquired)| == |acquired| && w.now <= judged.now
    requires judged == AfterOthers(AfterVisits(w, seen, VisitActions(t, env)), env.others(N(w)), t)
    requires if |acquired| < Quorum(N(w)) || !InBudget(w.now, judged.now, ttl) then r == Err(Held)
             else if env.delivery(N(w)).Answered? then r.Ok?
             else r == Err(Backend)
    ensures Judged(w, seen, judged, t, ttl, env, r)
  {
  }

  lemma BeginFreesNothing(w: World, t: Token, ttl: nat)
    requires Enabled(w, Begin(t, ttl))
    ensures var v := Next(w, Begin(t, ttl)); N(v) == N(w) && v.now == w.now && v.nodes == w.nodes && FreeNodes(v) == FreeNodes(w)
  {
  }

  lemma BeginRenewalOwnsNothing(w: World, r: nat, t: Token, ttl: nat)
    requires Enabled(w, BeginRenewal(r, t, ttl))
    ensures var v := Next(w, BeginRenewal(r, t, ttl)); OwnedNodes(v, t) == OwnedNodes(w, t) && RenewingAt(t, r)(v, 0)
  {
  }

  // Undisturbed but for d milliseconds before its judgement, the round is granted exactly
  // when more than half the nodes are free and d is below nine tenths of the lease.
  lemma DelayedJudgement(w: World, seen: seq<World>, judged: World, t: Token, ttl: nat, env: Environment,
                         r: Result<nat, Error>, d: nat)
    requires Delayed(env, N(w), d)
    requires t in w.clients && w.clients[t] == Client(ttl, Acquiring(w.now, 0, {}))
    requires forall i :: 0 <= i < N(w) ==> !Carries(w.nodes[i], t)
    requires Judged(w, seen, judged, t, ttl, env, r)
    ensures r.Ok? || r == Err(Held)
    ensures r.Ok? <==> 2 * |FreeNodes(w)| > N(w) && 10 * d < 9 * ttl
  {
    DelayedWalk(w, seen, t, env, d);
    assert env.others(|seen|) == (if d > 0 then [Tick(d)] else []) && env.delivery(N(w)) == Answered;
    DelayTicks(AfterVisits(w, seen, VisitActions(t, env)), d, t);
  }

  // What an answer says of the nodes that granted, those that were free and what is
  // left of the lease at the judgement.
  ghost predicate Explained(r: Result<nat, Error>, granting: set<nat>, free: set<nat>, left: int, n: nat, ttl: nat,
                            env: Environment) {
    && (r.Ok? ==> 2 * |granting| > n && 10 * left > ttl)
    && (r == Err(Held) ==> 2 * |granting| <= n || 10 * left <= ttl)
    && forall d: nat :: Delayed(env, n, d) ==> (r.Ok? <==> 2 * |free| > n && 10 * d < 9 * ttl) && (r.Ok? || r == Err(Held))
  }

  lemma DelayedJudgements(w: World, seen: seq<World>, judged: World, t: Token, ttl: nat, env: Environment,
                          r: Result<nat, Error>)
    requires t in w.clients && w.clients[t] == Client(ttl, Acquiring(w.now, 0, {}))
    requires forall i :: 0 <= i < N(w) ==> !Carries(w.nodes[i], t)
    requires if NoneFails(env, N(w)) then Judged(w, seen, judged, t, ttl, env, r) else r == Err(Backend)
    ensures Explained(r, Granting(seen, t, env), FreeNodes(w), w.now + ttl - judged.now, N(w), ttl, env)
  {
    forall d: nat | Delayed(env, N(w), d)
      ensures (r.Ok? <==> 2 * |FreeNodes(w)| > N(w) && 10 * d < 9 * ttl) && (r.Ok? || r == Err(Held))
    {
      assert NoneFails(env, N(w));
      DelayedJudgement(w, seen, judged, t, ttl, env, r, d);
    }
    if NoneFails(env, N(w)) {
      JudgedByWhatIsLeft(w, seen, judged, t, ttl, env, r);
    }
  }

  // What a judgement says of the lease, counted from its end: granted with more than a
  // tenth left, refused for want of a majority or with a tenth left at most.
  lemma JudgedByWhatIsLeft(w: World, seen: seq<World>, judged: World, t: Token, ttl: nat, env: Environment,
                           r: Result<nat, Error>)
    requires Judged(w, seen, judged, t, ttl, env, r)
    ensures r.Ok? ==> 2 * |Granting(seen, t, env)| > N(w) && 10 * (w.now + ttl - judged.now) > ttl
    ensures r == Err(Held) ==> 2 * |Granting(seen, t, env)| <= N(w) || 10 * (w.now + ttl - judged.now) <= ttl
    ensures r == Err(Backend) ==> 2 * |Granting(seen, t, env)| > N(w) && 10 * (w.now + ttl - judged.now) > ttl
  {
  }

  // The claim window ends at the later of its old end and until, under the same fence.
  ghost predicate MovedTo(was: Phase, p: Phase, until: nat) {
    && was.Claimed? && p.Claimed? && p.fence == was.fence
    && p.deadline >= until && p.deadline >= was.deadline && (p.deadline == until || p.deadline == was.deadline)
  }

  // The answer of a renewal round.
  ghost function RenewalAnswer(seen: seq<World>, t: Token, env: Environment, n: nat): Result<bool, Error> {
    if |Renewing(seen, t, env)| >= Quorum(n) then Ok(true)
    else if SomeOther(seen, t, env) then Ok(false)
    else Err(Backend)
  }

  lemma RenewalByMajority(seen: seq<World>, t: Token, env: Environment, n: nat)
    ensures RenewalAnswer(seen, t, env, n) == Ok(true) <==> 2 * |Renewing(seen, t, env)| > n
    ensures RenewalAnswer(seen, t, env, n) == Ok(false) ==> SomeOther(seen, t, env)
    ensures RenewalAnswer(seen, t, env, n) == Err(Backend) ==> !SomeOther(seen, t, env)
  {
  }

  lemma RenewalMovesWindow(c: Client, until: nat, support: set<nat>)
    requires c.phase.Claimed?
    ensures MovedTo(c.phase, Renewed(c, until, support).phase, until)
  {
  }

  class Ring {
    const nodes: array<Option<Lease>>
    var now: nat
    var clients: map<Token, Client>
    var rounds: map<nat, Round>
    var allocator: nat
    var log: seq<Grant>
    var delayed: bool
    var mixed: bool
    var poisoned: set<Token>

    constructor (n: nat)
      ensures View() == Init(n) && fresh(nodes)
    {
      nodes := new Option<Lease>[n](_ => None);
      now, clients, rounds, allocator, log := 0, map[], map[], 0, [];
      delayed, mixed, poisoned := false, false, {};
      new;
      assert nodes[..] == Init(n).nodes;
    }

    ghost function View(): (w: World)
      reads this, nodes
      ensures N(w) == nodes.Length
    {
      World(now, nodes[..], clients, rounds, allocator, log, delayed, mixed)
    }

    // One step of somebody else.
    method Perform(a: Action)
      requires Enabled(World(now, nodes[..], clients, rounds, allocator, log, delayed, mixed), a)
      modifies this, nodes
      ensures View() == Next(old(View()), a) && poisoned == old(poisoned)
    {
      var w := Next(World(now, nodes[..], clients, rounds, allocator, log, delayed, mixed), a);
      RingSizeIsFixed(View(), a);
      now, clients, rounds, allocator, log := w.now, w.clients, w.rounds, w.allocator, w.log;
      delayed, mixed := w.delayed, w.mixed;
      forall i | 0 <= i < nodes.Length {
        nodes[i] := w.nodes[i];
      }
      assert nodes[..] == w.nodes;
    }

    // The others run for a while; they cannot speak for our token.
    method Interfere(t: Token, acts: seq<Action>, ghost P: World -> bool)
      requires Closed(P, AnyAction) && P(View()) && t in clients
      modifies this, nodes
      ensures P(View()) && poisoned == old(poisoned)
      ensures t in clients && clients[t] == old(clients[t]) && now >= old(now)
      ensures forall i :: 0 <= i < nodes.Length && Carries(nodes[i], t) ==> nodes[i] == old(nodes[i])
      ensures forall r :: r in old(rounds) && old(rounds)[r].token == t ==>
                r in rounds && rounds[r] == old(rounds)[r]
    {
      OthersAct(t, acts, P);
    }

    // The same, and exactly what they make of the world.
    method OthersAct(t: Token, acts: seq<Action>, ghost P: World -> bool)
      requires Closed(P, AnyAction) && P(View()) && t in clients
      modifies this, nodes
      ensures P(View()) && poisoned == old(poisoned)
      ensures View() == AfterOthers(old(View()), acts, t)
      ensures t in clients && clients[t] == old(clients[t]) && now >= old(now)
      ensures forall i :: 0 <= i < nodes.Length && Carries(nodes[i], t) ==> nodes[i] == old(nodes[i])
      ensures forall r :: r in old(rounds) && old(rounds)[r].token == t ==>
                r in rounds && rounds[r] == old(rounds)[r]
    {
      for k := 0 to |acts|
        invariant P(View()) && poisoned == old(poisoned)
        invariant View() == AfterOthers(old(View()), acts[..k], t)
        invariant t in clients && clients[t] == old(clients[t]) && now >= old(now)
        invariant forall i :: 0 <= i < nodes.Length && Carries(nodes[i], t) ==> nodes[i] == old(nodes[i])
        invariant forall r :: r in old(rounds) && old(rounds)[r].token == t ==>
                    r in rounds && rounds[r] == old(rounds)[r]
      {
        var w := World(now, nodes[..], clients, rounds, allocator, log, delayed, mixed);
        assert acts[..k + 1][..k] == acts[..k];
        if Enabled(w, acts[k]) && Foreign(w, acts[k], t) {
          ForeignActionKeepsClient(w, acts[k], t);
          ForeignActionKeepsNodes(w, acts[k], t);
          ForeignActionKeepsRounds(w, acts[k], t);
          assert AnyAction(acts[k]);
          Perform(acts[k]);
          assert forall i :: 0 <= i < nodes.Length ==> nodes[i] == View().nodes[i];
        }
      }
      assert acts[..|acts|] == acts;
    }

    // acquire.lua on one node.
    method AcquireScript(i: nat, t: Token, ttl: nat) returns (status: nat)
      requires i < nodes.Length
      modifies nodes
      ensures nodes[..] == old(nodes[..])[i := LockAfterAcquire(old(nodes[i]), now, t, ttl)]
      ensures (status == 1 || status == 2) <==> AcquireGrants(old(nodes[i]), now, t)
    {
      if nodes[i].None? || nodes[i].value.expiry <= now {
        nodes[i] := Some(Lease(t, now + ttl));
        return 1;
      }
      if nodes[i].value.token == t {
        nodes[i] := Some(Lease(t, now + ttl));
        return 2;
      }
      status := 0;
    }

    // extend.lua on one node.
    method ExtendScript(i: nat, t: Token, ttl: nat) returns (ok: nat)
      requires i < nodes.Length
      modifies nodes
      ensures nodes[..] == old(nodes[..])[i := LockAfterExtend(old(nodes[i]), now, t, ttl)]
      ensures ok == 1 <==> Owns(old(nodes[i]), now, t)
      ensures var l := old(nodes[i]);
              if l.Some? && now < l.value.expiry && l.value.token == t then ok == 1 && nodes[i] == Some(Lease(t, now + ttl))
              else ok == 0 && nodes[i] == l
    {
      if Owns(nodes[i], now, t) {
        nodes[i] := Some(Lease(t, now + ttl));
        return 1;
      }
      ok := 0;
    }

    // release.lua on one node.
    method ReleaseScript(i: nat, t: Token) returns (ok: nat)
      requires i < nodes.Length
      modifies nodes
      ensures nodes[..] == old(nodes[..])[i := LockAfterRelease(old(nodes[i]), now, t)]
      ensures ok == 1 <==> Owns(old(nodes[i]), now, t)
      ensures var l := old(nodes[i]);
              if l.Some? && now < l.value.expiry && l.value.token == t then ok == 1 && nodes[i] == None
              else ok == 0 && nodes[i] == l
    {
      if Owns(nodes[i], now, t) {
        nodes[i] := None;
        return 1;
      }
      ok := 0;
    }

    // ------------------------------------------------------------------
    // The acquisition round
    // ------------------------------------------------------------------

    // Visit of one node: the script runs unless the request is lost, and the
    // answer counts only if it arrives in time.
    method VisitNode(t: Token, ttl: nat, start: nat, i: nat, acquired: seq<nat>, d: Delivery, ghost P: World -> bool)
      returns (acquired': seq<nat>)
      requires Closed(P, AnyAction) && P(View())
      requires i < nodes.Length && !d.Failed?
      requires t in clients && clients[t] == Client(ttl, Acquiring(start, i, SetOf(acquired)))
      modifies this`clients, nodes
      ensures P(View())
      ensures View() == Next(old(View()), if d == TimedOut(false) then SkipNode(t) else AcquireNode(t, d.Answered?))
      ensures acquired' == if d.Answered? && AcquireGrants(old(nodes[i]), now, t) then acquired + [i] else acquired
      ensures clients.Keys == old(clients.Keys) && clients[t] == Client(ttl, Acquiring(start, i + 1, SetOf(acquired')))
      ensures forall j :: 0 <= j < nodes.Length && j != i ==> nodes[j] == old(nodes[j])
      ensures nodes[i] == if d == TimedOut(false) then old(nodes[i]) else LockAfterAcquire(old(nodes[i]), now, t, ttl)
    {
      ghost var s := View();
      acquired' := acquired;
      if d == TimedOut(false) {
        clients := clients[t := Client(ttl, Acquiring(start, i + 1, SetOf(acquired)))];
        assert AnyAction(SkipNode(t));
        SkipIsAStep(s, t);
        assert View() == Next(s, SkipNode(t));
      } else {
        var status := AcquireScript(i, t, ttl);
        if d.Answered? && (status == 1 || status == 2) {
          acquired' := acquired + [i];
          assert SetOf(acquired') == SetOf(acquired) + {i};
        }
        clients := clients[t := Client(ttl, Acquiring(start, i + 1, SetOf(acquired')))];
        assert AnyAction(AcquireNode(t, d.Answered?));
        VisitIsAStep(s, t, d.Answered?);
        assert View() == Next(s, AcquireNode(t, d.Answered?));
      }
    }

    // try_lock: one round over the ring under a fresh token. seen[i] is the world in
    // which node i is visited, judged the one in which the round is; both are
    // determined by the world at the call and the environment.
    method TryLock(t: Token, ttl: nat, env: Environment, ghost P: World -> bool)
      returns (r: Result<nat, Error>, ghost seen: seq<World>, ghost judged: World)
      requires Closed(P, AnyAction) && P(View())
      requires t !in clients && forall i :: 0 <= i < nodes.Length ==> !Carries(nodes[i], t)
      modifies this, nodes
      ensures P(View())
      ensures ttl < Mutex.MIN_TTL <==> r == Err(InvalidConfig)
      ensures ttl < Mutex.MIN_TTL ==> View() == old(View())
      ensures ttl >= Mutex.MIN_TTL && !NoneFails(env, nodes.Length) ==> r == Err(Backend)
      ensures ttl >= Mutex.MIN_TTL && NoneFails(env, nodes.Length) ==>
                Judged(Next(old(View()), Begin(t, ttl)), seen, judged, t, ttl, env, r)
      ensures r.Ok? ==>
                && t in clients && clients[t] == Client(ttl, Claimed(r.value, old(now) + ttl, Granting(seen, t, env)))
                && r.value == allocator
                && log != [] && log[|log| - 1] == Grant(t, r.value, now, old(now) + ttl, Granting(seen, t, env))
      ensures r == Err(Held) || r == Err(Backend) ==> t in clients && clients[t].phase.Gone?
      ensures r == Err(Held) && (forall k :: env.delivery(k) == Answered) ==>
                forall i :: 0 <= i < nodes.Length ==> !Owns(nodes[i], now, t)
      ensures r.Ok? ==> 2 * |Granting(seen, t, env)| > nodes.Length && 10 * (old(now) + ttl - judged.now) > ttl
      ensures r == Err(Held) ==> 2 * |Granting(seen, t, env)| <= nodes.Length || 10 * (old(now) + ttl - judged.now) <= ttl
      ensures ttl >= Mutex.MIN_TTL ==> forall d: nat :: Delayed(env, nodes.Length, d) ==>
                (r.Ok? <==> 2 * |FreeNodes(old(View()))| > nodes.Length && 10 * d < 9 * ttl) && (r.Ok? || r == Err(Held))
    {
      seen, judged := [], View();
      if ttl < Mutex.MIN_TTL {
        r := Err(InvalidConfig);
        return;
      }
      Enter(t, ttl, P);
      r, seen, judged := ExplainRound(t, ttl, env, P);
    }

    // The round after it has been entered, and what its answer means.
    method ExplainRound(t: Token, ttl: nat, env: Environment, ghost P: World -> bool)
      returns (r: Result<nat, Error>, ghost seen: seq<World>, ghost judged: World)
      requires Closed(P, AnyAction) && P(View())
      requires t in clients && clients[t] == Client(ttl, Acquiring(now, 0, {}))
      requires forall i :: 0 <= i < nodes.Length ==> !Carries(nodes[i], t)
      modifies this, nodes
      ensures P(View())
      ensures if NoneFails(env, nodes.Length) then Judged(old(View()), seen, judged, t, ttl, env, r) else r == Err(Backend)
      ensures r.Ok? ==>
                && t in clients && clients[t] == Client(ttl, Claimed(r.value, old(now) + ttl, Granting(seen, t, env)))
                && r.value == allocator
                && log != [] && log[|log| - 1] == Grant(t, r.value, now, old(now) + ttl, Granting(seen, t, env))
      ensures r.Err? ==> t in clients && clients[t].phase.Gone? && r.error in {Held, Backend}
      ensures r == Err(Held) && (forall k :: env.delivery(k) == Answered) ==>
                forall i :: 0 <= i < nodes.Length ==> !Owns(nodes[i], now, t)
      ensures Explained(r, Granting(seen, t, env), FreeNodes(old(View())), old(now) + ttl - judged.now, nodes.Length, ttl, env)
    {
      ghost var w := View();
      r, seen, judged := RunRound(t, ttl, env, P);
      DelayedJudgements(w, seen, judged, t, ttl, env, r);
    }

    // The round after it has been entered: the walk, and what follows from it.
    method RunRound(t: Token, ttl: nat, env: Environment, ghost P: World -> bool)
      returns (r: Result<nat, Error>, ghost seen: seq<World>, ghost judged: World)
      requires Closed(P, AnyAction) && P(View())
      requires t in clients && clients[t] == Client(ttl, Acquiring(now, 0, {}))
      requires forall i :: 0 <= i < nodes.Length ==> !Carries(nodes[i], t)
      modifies this, nodes
      ensures P(View())
      ensures if NoneFails(env, nodes.Length) then Judged(old(View()), seen, judged, t, ttl, env, r) else r == Err(Backend)
      ensures r.Ok? ==>
                && t in clients && clients[t] == Client(ttl, Claimed(r.value, old(now) + ttl, Granting(seen, t, env)))
                && r.value == allocator
                && log != [] && log[|log| - 1] == Grant(t, r.value, now, old(now) + ttl, Granting(seen, t, env))
      ensures r.Err? ==> t in clients && clients[t].phase.Gone? && r.error in {Held, Backend}
      ensures r == Err(Held) && (forall k :: env.delivery(k) == Answered) ==>
                forall i :: 0 <= i < nodes.Length ==> !Owns(nodes[i], now, t)
    {
      ghost var w := View();
      var started := now;
      var acquired, reached;
      acquired, reached, seen := Walk(t, ttl, started, env, P);
      judged := View();
      if !reached {
        r := Err(Backend);
        return;
      }
      r, judged := Finish(t, ttl, started, acquired, env, P);
      RoundIsJudged(w, seen, acquired, judged, t, ttl, env, r);
    }

    // The judgement on a completed walk, and what follows from it.
    method Finish(t: Token, ttl: nat, started: nat, acquired: seq<nat>, env: Environment, ghost P: World -> bool)
      returns (r: Result<nat, Error>, ghost judged: World)
      requires Closed(P, AnyAction) && P(View()) && started <= now
      requires t in clients && clients[t] == Client(ttl, Acquiring(started, nodes.Length, SetOf(acquired)))
      requires |SetOf(acquired)| == |acquired| && forall k :: 0 <= k < |acquired| ==> acquired[k] < nodes.Length
      requires (forall k :: env.delivery(k) == Answered) ==>
                 forall j :: 0 <= j < nodes.Length && Carries(nodes[j], t) ==> j in acquired
      modifies this, nodes
      ensures P(View())
      ensures judged == AfterOthers(old(View()), env.others(nodes.Length), t) && judged.now >= old(now)
      ensures if |acquired| < Quorum(nodes.Length) || !InBudget(started, judged.now, ttl) then r == Err(Held)
              else if env.delivery(nodes.Length).Answered? then r.Ok?
              else r == Err(Backend)
      ensures r.Ok? ==>
                && t in clients && clients[t] == Client(ttl, Claimed(r.value, started + ttl, SetOf(acquired)))
                && r.value == allocator
                && log != [] && log[|log| - 1] == Grant(t, r.value, now, started + ttl, SetOf(acquired))
      ensures r.Err? ==> t in clients && clients[t].phase.Gone?
      ensures r == Err(Held) && (forall k :: env.delivery(k) == Answered) ==>
                forall i :: 0 <= i < nodes.Length ==> !Owns(nodes[i], now, t)
    {
      var passed;
      passed, judged := JudgeRound(t, ttl, started, acquired, env, P);
      if passed {
        Interfere(t, env.others(nodes.Length + 1), P);
        r := AllocateFence(t, env.delivery(nodes.Length).Answered?, P);
      } else {
        RollBack(t, acquired, env, P);
        r := Err(Held);
      }
    }

    method JudgeRound(t: Token, ttl: nat, started: nat, acquired: seq<nat>, env: Environment, ghost P: World -> bool)
      returns (passed: bool, ghost judged: World)
      requires Closed(P, AnyAction) && P(View()) && started <= now && |SetOf(acquired)| == |acquired|
      requires t in clients && clients[t] == Client(ttl, Acquiring(started, nodes.Length, SetOf(acquired)))
      modifies this, nodes
      ensures P(View())
      ensures judged == AfterOthers(old(View()), env.others(nodes.Length), t) && judged.now >= old(now)
      ensures passed <==> |acquired| >= Quorum(nodes.Length) && InBudget(started, judged.now, ttl)
      ensures passed <==> 2 * |acquired| > nodes.Length && 10 * (started + ttl - judged.now) > ttl
      ensures t in clients && clients[t] == Client(ttl, if passed then Passed(started, SetOf(acquired)) else Gone)
      ensures forall i :: 0 <= i < nodes.Length && Carries(nodes[i], t) ==> nodes[i] == old(nodes[i])
    {
      OthersAct(t, env.others(nodes.Length), P);
      judged := View();
      passed := Judge(t, ttl, started, acquired, P);
    }

    method Enter(t: Token, ttl: nat, ghost P: World -> bool)
      requires Closed(P, AnyAction) && P(View()) && t !in clients && ttl >= Mutex.MIN_TTL
      modifies this`clients
      ensures P(View()) && View() == Next(old(View()), Begin(t, ttl))
      ensures clients == old(clients)[t := Client(ttl, Acquiring(now, 0, {}))]
      ensures FreeNodes(View()) == FreeNodes(old(View()))
    {
      ghost var s := View();
      BeginFreesNothing(s, t, ttl);
      clients := clients[t := Client(ttl, Acquiring(now, 0, {}))];
      assert AnyAction(Begin(t, ttl)) && View() == Next(s, Begin(t, ttl));
    }

    // The sequential walk over the ring collects the nodes that granted and said so;
    // a failed node ends the call early.
    method Walk(t: Token, ttl: nat, started: nat, env: Environment, ghost P: World -> bool)
      returns (acquired: seq<nat>, reached: bool, ghost seen: seq<World>)
      requires Closed(P, AnyAction) && P(View()) && started <= now
      requires t in clients && clients[t] == Client(ttl, Acquiring(started, 0, {}))
      requires forall i :: 0 <= i < nodes.Length ==> !Carries(nodes[i], t)
      modifies this, nodes
      ensures P(View()) && started <= now && t in clients
      ensures reached <==> NoneFails(env, nodes.Length)
      ensures !reached ==> clients[t].phase.Gone?
      ensures reached ==>
                && Walking(t, ttl, started, nodes.Length, acquired, env)
                && Watched(old(View()), seen, t, nodes.Length, acquired, env)
                && View() == AfterVisits(old(View()), seen, VisitActions(t, env))
    {
      acquired, reached, seen := [], true, [];
      ghost var w := View();
      var i := 0;
      NothingWatched(w, t, env);
      while i < nodes.Length
        invariant i <= nodes.Length && P(View()) && started <= now
        invariant Walking(t, ttl, started, i, acquired, env)
        invariant Watched(w, seen, t, i, acquired, env) && View() == AfterVisits(w, seen, VisitActions(t, env))
      {
        acquired, reached, seen := VisitAndWatch(t, ttl, started, i, acquired, env, w, seen, P);
        if !reached {
          return;
        }
        i := i + 1;
      }
    }

    method VisitAndWatch(t: Token, ttl: nat, started: nat, i: nat, acquired: seq<nat>, env: Environment,
                         ghost w: World, ghost seen: seq<World>, ghost P: World -> bool)
      returns (acquired': seq<nat>, reached: bool, ghost seen': seq<World>)
      requires Closed(P, AnyAction) && P(View()) && i < nodes.Length
      requires Walking(t, ttl, started, i, acquired, env)
      requires Watched(w, seen, t, i, acquired, env) && View() == AfterVisits(w, seen, VisitActions(t, env))
      modifies this, nodes
      ensures P(View()) && now >= old(now) && t in clients
      ensures reached <==> !env.delivery(i).Failed?
      ensures reached ==> Walking(t, ttl, started, i + 1, acquired', env)
      ensures reached ==> Watched(w, seen', t, i + 1, acquired', env) && View() == AfterVisits(w, seen', VisitActions(t, env))
      ensures !reached ==> clients[t].phase.Gone?
    {
      ghost var v;
      acquired', reached, v := VisitNext(t, ttl, started, i, acquired, env, P);
      if reached {
        WatchedNext(w, seen, v, t, i, acquired, env);
      }
      seen' := seen + [v];
    }

    // What the walk knows before visiting node i.
    ghost predicate Walking(t: Token, ttl: nat, started: nat, i: nat, acquired: seq<nat>, env: Environment)
      reads this`clients, nodes
    {
      && (forall k :: 0 <= k < |acquired| ==> acquired[k] < i)
      && |SetOf(acquired)| == |acquired|
      && t in clients && clients[t] == Client(ttl, Acquiring(started, i, SetOf(acquired)))
      && ((forall k :: env.delivery(k) == Answered) ==>
            forall j :: 0 <= j < nodes.Length && Carries(nodes[j], t) ==> j in acquired)
    }

    method VisitNext(t: Token, ttl: nat, started: nat, i: nat, acquired: seq<nat>, env: Environment, ghost P: World -> bool)
      returns (acquired': seq<nat>, reached: bool, ghost v: World)
      requires Closed(P, AnyAction) && P(View()) && i < nodes.Length
      requires Walking(t, ttl, started, i, acquired, env)
      modifies this, nodes
      ensures P(View()) && now >= old(now)
      ensures v == AfterOthers(old(View()), env.others(i), t) && N(v) == nodes.Length
      ensures reached <==> !env.delivery(i).Failed?
      ensures reached ==> View() == Next(v, VisitActions(t, env)(i))
      ensures reached ==> acquired' == acquired + if env.delivery(i).Answered? && AcquireGrants(v.nodes[i], v.now, t) then [i] else []
      ensures reached ==> Walking(t, ttl, started, i + 1, acquired', env)
      ensures !reached ==> t in clients && clients[t].phase.Gone?
    {
      OthersAct(t, env.others(i), P);
      v := View();
      if env.delivery(i).Failed? {
        GiveUp(t, P);
        acquired', reached := acquired, false;
        return;
      }
      acquired' := VisitReached(t, ttl, started, i, acquired, env, P);
      reached := true;
    }

    method VisitReached(t: Token, ttl: nat, started: nat, i: nat, acquired: seq<nat>, env: Environment, ghost P: World -> bool)
      returns (acquired': seq<nat>)
      requires Closed(P, AnyAction) && P(View()) && i < nodes.Length && !env.delivery(i).Failed?
      requires Walking(t, ttl, started, i, acquired, env)
      modifies this`clients, nodes
      ensures P(View()) && View() == Next(old(View()), VisitActions(t, env)(i))
      ensures acquired' == acquired + if env.delivery(i).Answered? && AcquireGrants(old(nodes[i]), now, t) then [i] else []
      ensures Walking(t, ttl, started, i + 1, acquired', env)
    {
      SetOfGrows(acquired, i);
      acquired' := VisitNode(t, ttl, started, i, acquired, env.delivery(i), P);
    }

    // An early error return; the leases taken so far stay until their TTL.
    method GiveUp(t: Token, ghost P: World -> bool)
      requires Closed(P, AnyAction) && P(View())
      requires t in clients && clients[t].phase.Acquiring?
      modifies this`clients
      ensures P(View())
      ensures clients == old(clients)[t := Client(old(clients)[t].ttl, Gone)]
    {
      ghost var s := View();
      clients := clients[t := Client(clients[t].ttl, Gone)];
      LeaveIsAStep(s, Abandon(t), t);
      assert AnyAction(Abandon(t)) && View() == Next(s, Abandon(t));
    }

    // Quorum and the elapsed-time check.
    method Judge(t: Token, ttl: nat, started: nat, acquired: seq<nat>, ghost P: World -> bool)
      returns (passed: bool)
      requires Closed(P, AnyAction) && P(View()) && started <= now
      requires t in clients && clients[t] == Client(ttl, Acquiring(started, nodes.Length, SetOf(acquired)))
      requires |SetOf(acquired)| == |acquired|
      modifies this`clients
      ensures P(View())
      ensures passed <==> 2 * |acquired| > nodes.Length && 10 * (started + ttl - now) > ttl
      ensures clients == old(clients)[t := Client(ttl, if passed then Passed(started, SetOf(acquired)) else Gone)]
    {
      ghost var s := View();
      passed := |acquired| >= Quorum(nodes.Length) && InBudget(started, now, ttl);
      clients := clients[t := Client(ttl, if passed then Passed(started, SetOf(acquired)) else Gone)];
      ConcludeIsAStep(s, t);
      assert AnyAction(Conclude(t)) && View() == Next(s, Conclude(t));
    }

    method AllocateFence(t: Token, heard: bool, ghost P: World -> bool) returns (r: Result<nat, Error>)
      requires Closed(P, AnyAction) && P(View())
      requires t in clients && clients[t].phase.Passed?
      modifies this`clients, this`allocator, this`log
      ensures P(View())
      ensures allocator == old(allocator) + 1
      ensures var c := old(clients)[t];
              if heard then
                && r == Ok(allocator)
                && clients == old(clients)[t := Client(c.ttl, Claimed(allocator, c.phase.start + c.ttl, c.phase.acquired))]
                && log == old(log) + [Grant(t, allocator, now, c.phase.start + c.ttl, c.phase.acquired)]
              else r == Err(Backend) && clients == old(clients)[t := Client(c.ttl, Gone)] && log == old(log)
    {
      ghost var s := View();
      var c := clients[t];
      allocator := allocator + 1;
      if heard {
        log := log + [Grant(t, allocator, now, c.phase.start + c.ttl, c.phase.acquired)];
        clients := clients[t := Client(c.ttl, Claimed(allocator, c.phase.start + c.ttl, c.phase.acquired))];
        r := Ok(allocator);
      } else {
        clients := clients[t := Client(c.ttl, Gone)];
        r := Err(Backend);
      }
      AllocateIsAStep(s, t, heard);
      assert AnyAction(Allocate(t, heard)) && View() == Next(s, Allocate(t, heard));
    }

    method ReleaseOn(t: Token, i: nat, ghost P: World -> bool)
      requires Closed(P, AnyAction) && P(View()) && i < nodes.Length
      requires t in clients && clients[t].phase.Gone?
      modifies nodes
      ensures P(View())
      ensures !Owns(nodes[i], now, t)
      ensures forall j :: 0 <= j < nodes.Length && j != i ==> nodes[j] == old(nodes[j])
    {
      var _ := ReleaseStep(t, i, P);
    }

    method ReleaseStep(t: Token, i: nat, ghost P: World -> bool) returns (ok: nat)
      requires Closed(P, AnyAction) && P(View()) && i < nodes.Length
      requires t in clients && clients[t].phase.Gone?
      modifies nodes
      ensures P(View()) && View() == Next(old(View()), ReleaseNode(t, i))
      ensures ok == 1 <==> Owns(old(nodes[i]), now, t)
      ensures !Owns(nodes[i], now, t)
      ensures forall j :: 0 <= j < nodes.Length && j != i ==> nodes[j] == old(nodes[j])
      ensures nodes[i] == old(nodes[i]) || nodes[i] == None
    {
      ghost var s := View();
      ok := ReleaseScript(i, t);
      ReleaseNodeIsAStep(s, t, i);
      assert AnyAction(ReleaseNode(t, i)) && View() == Next(s, ReleaseNode(t, i));
      assert nodes[i] == nodes[..][i];
      assert forall j :: 0 <= j < nodes.Length ==> nodes[j] == nodes[..][j];
    }

    // Releases everything the round took.
    method RollBack(t: Token, acquired: seq<nat>, env: Environment, ghost P: World -> bool)
      requires Closed(P, AnyAction) && P(View())
      requires t in clients && clients[t].phase.Gone?
      requires forall k :: 0 <= k < |acquired| ==> acquired[k] < nodes.Length
      requires (forall k :: env.delivery(k) == Answered) ==>
                 forall j :: 0 <= j < nodes.Length && Carries(nodes[j], t) ==> j in acquired
      modifies this, nodes
      ensures P(View())
      ensures t in clients && clients[t].phase.Gone?
      ensures forall k :: 0 <= k < |acquired| && Reached(env.delivery(nodes.Length + k)) ==> !Owns(nodes[acquired[k]], now, t)
      ensures (forall k :: env.delivery(k) == Answered) ==>
                forall i :: 0 <= i < nodes.Length ==> !Owns(nodes[i], now, t)
    {
      for k := 0 to |acquired|
        invariant P(View())
        invariant forall m :: 0 <= m < k && Reached(env.delivery(nodes.Length + m)) ==> !Owns(nodes[acquired[m]], now, t)
        invariant t in clients && clients[t].phase.Gone?
        invariant (forall m :: env.delivery(m) == Answered) ==>
                    forall j :: 0 <= j < nodes.Length && Owns(nodes[j], now, t) ==> j in acquired[k..]
      {
        Interfere(t, env.others(nodes.Length + 1 + k), P);
        if Reached(env.delivery(nodes.Length + k)) {
          ReleaseOn(t, acquired[k], P);
        }
      }
    }

    // ------------------------------------------------------------------
    // Release
    // ------------------------------------------------------------------

    // release: the claim ends before the first node is visited; a second call
    // does nothing. seen[i] is the world in which node i is visited.
    method ReleaseClaim(t: Token, env: Environment, ghost P: World -> bool)
      returns (r: Result<(), Error>, ghost seen: seq<World>)
      requires Closed(P, AnyAction) && P(View())
      requires t in clients && (clients[t].phase.Claimed? || clients[t].phase.Gone?)
      modifies this, nodes
      ensures P(View())
      ensures t in clients && clients[t].phase.Gone?
      ensures old(clients)[t].phase.Gone? ==> r == Ok(()) && View() == old(View())
      ensures old(clients)[t].phase.Claimed? ==>
                var w := Next(old(View()), Release(t));
                && Visits(w, seen, t, env, ReleaseActions(t, env))
                && View() == AfterVisits(w, seen, ReleaseActions(t, env))
                && r == if SomeOwner(seen, t, env) then Ok(()) else if SomeOther(seen, t, env) then Err(Lost) else Err(Backend)
      ensures old(clients)[t].phase.Claimed? && (forall k :: env.delivery(k) == Answered) ==>
                forall i :: 0 <= i < nodes.Length ==> !Owns(nodes[i], now, t)
      ensures old(clients)[t].phase.Claimed? && Quiet(env) ==> (r.Ok? <==> OwnedNodes(old(View()), t) != {})
      ensures old(clients)[t].phase.Claimed? && (forall i :: 0 <= i < nodes.Length ==> !env.delivery(i).Answered?) ==> r == Err(Backend)
    {
      seen := [];
      r := Ok(());
      if clients[t].phase.Gone? {
        return;
      }
      EndClaim(t, P);
      ghost var w := View();
      var releasedAny, sawNotOwner := false, false;
      for i := 0 to nodes.Length
        invariant P(View()) && Releasing(t, i, releasedAny, sawNotOwner, w, seen, env)
      {
        releasedAny, sawNotOwner, seen := ReleaseNext(t, i, releasedAny, sawNotOwner, w, seen, env, P);
      }
      r := if releasedAny then Ok(()) else if sawNotOwner then Err(Lost) else Err(Backend);
      if Quiet(env) {
        QuietRelease(w, seen, t, env);
      }
    }

    method EndClaim(t: Token, ghost P: World -> bool)
      requires Closed(P, AnyAction) && P(View()) && t in clients && clients[t].phase.Claimed?
      modifies this`clients
      ensures P(View()) && View() == Next(old(View()), Release(t))
      ensures t in clients && clients[t].phase.Gone?
      ensures OwnedNodes(View(), t) == OwnedNodes(old(View()), t)
    {
      ghost var s := View();
      clients := clients[t := Client(clients[t].ttl, Gone)];
      LeaveIsAStep(s, Release(t), t);
      assert AnyAction(Release(t)) && View() == Next(s, Release(t));
    }

    // What the release loop begun in w knows before visiting node i.
    ghost predicate Releasing(t: Token, i: nat, releasedAny: bool, sawNotOwner: bool,
                              w: World, seen: seq<World>, env: Environment)
      reads this, nodes
    {
      && i <= nodes.Length == N(w)
      && t in clients && clients[t].phase.Gone?
      && |seen| == i && Trail(w, seen, t, env, ReleaseActions(t, env))
      && View() == AfterVisits(w, seen, ReleaseActions(t, env))
      && (releasedAny <==> SomeOwner(seen, t, env))
      && (sawNotOwner <==> SomeOther(seen, t, env))
      && ((forall k :: env.delivery(k) == Answered) ==> forall j :: 0 <= j < i ==> !Owns(nodes[j], now, t))
    }

    method ReleaseNext(t: Token, i: nat, releasedAny: bool, sawNotOwner: bool,
                       ghost w: World, ghost seen: seq<World>, env: Environment, ghost P: World -> bool)
      returns (releasedAny': bool, sawNotOwner': bool, ghost seen': seq<World>)
      requires Closed(P, AnyAction) && P(View()) && i < nodes.Length
      requires Releasing(t, i, releasedAny, sawNotOwner, w, seen, env)
      modifies this, nodes
      ensures P(View()) && Releasing(t, i + 1, releasedAny', sawNotOwner', w, seen', env)
    {
      var answer;
      ghost var v;
      answer, v := ReleaseVisit(t, i, env, P);
      MoreOwners(seen, v, t, env);
      MoreOthers(seen, v, t, env);
      TrailGrows(w, seen, t, env, ReleaseActions(t, env), v);
      seen' := seen + [v];
      releasedAny' := releasedAny || answer == Some(true);
      sawNotOwner' := sawNotOwner || answer == Some(false);
    }

    // One node of the release loop: the answer, if any, is whether it was the token's.
    method ReleaseVisit(t: Token, i: nat, env: Environment, ghost P: World -> bool)
      returns (answer: Option<bool>, ghost v: World)
      requires Closed(P, AnyAction) && P(View()) && i < nodes.Length
      requires t in clients && clients[t].phase.Gone?
      modifies this, nodes
      ensures P(View()) && t in clients && clients[t].phase.Gone?
      ensures v == AfterOthers(old(View()), env.others(i), t) && N(v) == nodes.Length
      ensures View() == Next(v, ReleaseActions(t, env)(i))
      ensures answer == if env.delivery(i).Answered? then Some(Owns(v.nodes[i], v.now, t)) else None
      ensures env.delivery(i).Answered? ==> !Owns(nodes[i], now, t)
      ensures forall j :: 0 <= j < nodes.Length && Owns(nodes[j], now, t) ==> Owns(old(nodes[j]), old(now), t)
    {
      OthersAct(t, env.others(i), P);
      v := View();
      var d := env.delivery(i);
      answer := None;
      if Reached(d) {
        var ok := ReleaseStep(t, i, P);
        answer := if d.Answered? then Some(ok == 1) else None;
      }
    }

    // ------------------------------------------------------------------
    // Renewal
    // ------------------------------------------------------------------

    // fire_extend: one renewal round of a held claim. True exactly when a quorum of
    // nodes answers while still owned; then the window moves to the round's start
    // plus the new TTL, unless it ends later already.
    method FireExtend(t: Token, ttl: nat, r: nat, env: Environment, ghost P: World -> bool)
      returns (res: Result<bool, Error>, ghost seen: seq<World>)
      requires Closed(P, AnyAction) && P(View())
      requires t in clients && clients[t].phase.Claimed? && r !in rounds && ttl >= Mutex.MIN_TTL
      modifies this, nodes
      ensures P(View()) && poisoned == old(poisoned)
      ensures var w := Next(old(View()), BeginRenewal(r, t, ttl));
              Visits(w, seen, t, env, RenewActions(r, env))
      ensures res == RenewalAnswer(seen, t, env, nodes.Length)
      ensures t in clients
      ensures clients[t] == if res == Ok(true) then Renewed(old(clients)[t], old(now) + ttl, Renewing(seen, t, env))
                            else old(clients)[t]
      ensures Quiet(env) ==> Renewing(seen, t, env) == OwnedNodes(old(View()), t)
    {
      BeginRenewalOwnsNothing(View(), r, t, ttl);
      StartRound(t, ttl, r, P);
      var ok, sawNotOwner;
      ok, sawNotOwner, seen := RenewAll(t, ttl, r, env, P);
      CloseRound(t, ttl, r, P);
      res := if ok >= Quorum(nodes.Length) then Ok(true) else if sawNotOwner then Ok(false) else Err(Backend);
    }

    method RenewAll(t: Token, ttl: nat, r: nat, env: Environment, ghost P: World -> bool)
      returns (ok: nat, sawNotOwner: bool, ghost seen: seq<World>)
      requires Closed(P, AnyAction) && P(View())
      requires t in clients && r in rounds && rounds[r] == Round(t, ttl, now, 0, {})
      modifies this, nodes
      ensures P(View()) && poisoned == old(poisoned)
      ensures t in clients && clients[t] == old(clients)[t]
      ensures r in rounds && rounds[r] == Round(t, ttl, old(now), nodes.Length, Renewing(seen, t, env))
      ensures ok == |Renewing(seen, t, env)| && (sawNotOwner <==> SomeOther(seen, t, env))
      ensures Visits(old(View()), seen, t, env, RenewActions(r, env))
      ensures Quiet(env) ==> Renewing(seen, t, env) == OwnedNodes(old(View()), t)
    {
      ok, sawNotOwner, seen := 0, false, [];
      ghost var w, started := View(), now;
      assert Renewing(seen, t, env) == {};
      var i: nat := 0;
      while i < nodes.Length
        invariant i <= nodes.Length && P(View()) && poisoned == old(poisoned)
        invariant t in clients && clients[t] == old(clients)[t]
        invariant Renewal(t, ttl, r, started, i, ok, sawNotOwner, w, seen, env)
      {
        ok, sawNotOwner, seen := RenewNext(t, ttl, r, started, i, ok, sawNotOwner, w, seen, env, P);
        i := i + 1;
      }
      if Quiet(env) {
        QuietRenewal(w, seen, t, r, env);
      }
    }

    // extend: anything but Ok leaves the claim as it was, and a lost round poisons
    // the handle.
    method Extend(t: Token, ttl: nat, r: nat, env: Environment, ghost P: World -> bool)
      returns (res: Result<(), Error>, ghost seen: seq<World>)
      requires Closed(P, AnyAction) && P(View())
      requires t in clients && (clients[t].phase.Claimed? || clients[t].phase.Gone?) && r !in rounds
      modifies this, nodes
      ensures P(View()) && t in clients
      ensures ttl < Mutex.MIN_TTL ==> res == Err(InvalidConfig) && View() == old(View())
      ensures ttl >= Mutex.MIN_TTL && old(clients)[t].phase.Gone? ==> res == Err(Lost) && View() == old(View())
      ensures ttl >= Mutex.MIN_TTL && old(clients)[t].phase.Claimed? ==>
                && Visits(Next(old(View()), BeginRenewal(r, t, ttl)), seen, t, env, RenewActions(r, env))
                && (res.Ok? <==> RenewalAnswer(seen, t, env, nodes.Length) == Ok(true))
                && (res == Err(Lost) <==> RenewalAnswer(seen, t, env, nodes.Length) == Ok(false))
                && (res == Err(Backend) <==> RenewalAnswer(seen, t, env, nodes.Length) == Err(Backend))
                && (Quiet(env) ==> (res.Ok? <==> 2 * |OwnedNodes(old(View()), t)| > nodes.Length))
      ensures poisoned == old(poisoned) + if res == Err(Lost) && old(clients)[t].phase.Claimed? then {t} else {}
      ensures res.Ok? ==> clients[t] == Renewed(old(clients)[t], old(now) + ttl, Renewing(seen, t, env))
      ensures res.Ok? ==> 2 * |Renewing(seen, t, env)| > nodes.Length
      ensures res == Err(Lost) && old(clients)[t].phase.Claimed? ==>
                2 * |Renewing(seen, t, env)| <= nodes.Length && SomeOther(seen, t, env)
      ensures res == Err(Backend) ==> 2 * |Renewing(seen, t, env)| <= nodes.Length && !SomeOther(seen, t, env)
      ensures res.Ok? ==> MovedTo(old(clients)[t].phase, clients[t].phase, old(now) + ttl)
      ensures res.Err? ==> clients[t] == old(clients)[t]
    {
      seen := [];
      if ttl < Mutex.MIN_TTL {
        res := Err(InvalidConfig);
        return;
      }
      if clients[t].phase.Gone? {
        res := Err(Lost);
        return;
      }
      var fired;
      fired, seen := FireExtend(t, ttl, r, env, P);
      RenewalByMajority(seen, t, env, nodes.Length);
      RenewalMovesWindow(old(clients)[t], old(now) + ttl, Renewing(seen, t, env));
      match fired {
        case Ok(true) => res := Ok(());
        case Ok(false) =>
          poisoned := poisoned + {t};
          res := Err(Lost);
        case Err(e) => res := Err(e);
      }
    }

    // What a renewal round begun in w knows before visiting node i.
    ghost predicate Renewal(t: Token, ttl: nat, r: nat, started: nat, i: nat, ok: nat, sawNotOwner: bool,
                            w: World, seen: seq<World>, env: Environment)
      reads this, nodes
    {
      && r in rounds && rounds[r] == Round(t, ttl, started, i, Renewing(seen, t, env))
      && ok == |Renewing(seen, t, env)| && (sawNotOwner <==> SomeOther(seen, t, env))
      && |seen| == i <= nodes.Length == N(w) && Trail(w, seen, t, env, RenewActions(r, env))
      && View() == AfterVisits(w, seen, RenewActions(r, env))
    }

    method RenewNext(t: Token, ttl: nat, r: nat, ghost started: nat, i: nat, ok: nat, sawNotOwner: bool,
                     ghost w: World, ghost seen: seq<World>, env: Environment, ghost P: World -> bool)
      returns (ok': nat, sawNotOwner': bool, ghost seen': seq<World>)
      requires Closed(P, AnyAction) && P(View()) && i < nodes.Length && t in clients
      requires Renewal(t, ttl, r, started, i, ok, sawNotOwner, w, seen, env)
      modifies this, nodes
      ensures P(View()) && poisoned == old(poisoned)
      ensures t in clients && clients[t] == old(clients)[t]
      ensures Renewal(t, ttl, r, started, i + 1, ok', sawNotOwner', w, seen', env)
    {
      OthersAct(t, env.others(i), P);
      ghost var v := View();
      MoreOwners(seen, v, t, env);
      MoreOthers(seen, v, t, env);
      TrailGrows(w, seen, t, env, RenewActions(r, env), v);
      var d := env.delivery(i);
      var won := RenewOn(t, ttl, r, i, d, P);
      seen' := seen + [v];
      ok' := if won then ok + 1 else ok;
      sawNotOwner' := sawNotOwner || (d.Answered? && !won);
    }

    method StartRound(t: Token, ttl: nat, r: nat, ghost P: World -> bool)
      requires Closed(P, AnyAction) && P(View())
      requires t in clients && clients[t].phase.Claimed? && r !in rounds && ttl >= Mutex.MIN_TTL
      modifies this`rounds, this`mixed
      ensures P(View()) && View() == Next(old(View()), BeginRenewal(r, t, ttl))
      ensures rounds == old(rounds)[r := Round(t, ttl, now, 0, {})]
    {
      ghost var s := View();
      mixed := mixed || ttl != clients[t].ttl;
      rounds := rounds[r := Round(t, ttl, now, 0, {})];
      assert AnyAction(BeginRenewal(r, t, ttl)) && View() == Next(s, BeginRenewal(r, t, ttl));
    }

    method RenewOn(t: Token, ttl: nat, r: nat, i: nat, d: Delivery, ghost P: World -> bool) returns (won: bool)
      requires Closed(P, AnyAction) && P(View()) && i < nodes.Length
      requires t in clients && r in rounds
      requires rounds[r].token == t && rounds[r].ttl == ttl && rounds[r].next == i
      modifies this`rounds, nodes
      ensures P(View())
      ensures View() == Next(old(View()), if Reached(d) then RenewNode(r, d.Answered?) else SkipRenewal(r))
      ensures won ==> d.Answered?
      ensures rounds == old(rounds)[r := Round(t, ttl, old(rounds)[r].start, i + 1,
                                               if won then old(rounds)[r].renewed + {i} else old(rounds)[r].renewed)]
      ensures d.Answered? ==> (won <==> Owns(old(nodes[i]), now, t))
    {
      ghost var s := View();
      var q := rounds[r];
      if d.Failed? || d == TimedOut(false) {
        rounds := rounds[r := q.(next := i + 1)];
        assert AnyAction(SkipRenewal(r)) && View() == Next(s, SkipRenewal(r));
        won := false;
      } else {
        var ok := ExtendScript(i, t, ttl);
        won := d.Answered? && ok == 1;
        rounds := rounds[r := Round(t, ttl, q.start, i + 1, if won then q.renewed + {i} else q.renewed)];
        RenewIsAStep(s, r, d.Answered?);
        assert AnyAction(RenewNode(r, d.Answered?)) && View() == Next(s, RenewNode(r, d.Answered?));
      }
    }

    method CloseRound(t: Token, ttl: nat, r: nat, ghost P: World -> bool)
      requires Closed(P, AnyAction) && P(View())
      requires t in clients && clients[t].phase.Claimed? && r in rounds
      requires rounds[r].token == t && rounds[r].ttl == ttl && rounds[r].next == nodes.Length
      modifies this`rounds, this`clients
      ensures P(View())
      ensures var q, c := old(rounds)[r], old(clients)[t];
              clients == if |q.renewed| >= Quorum(nodes.Length) && q.start + ttl > c.phase.deadline
                         then old(clients)[t := Client(c.ttl, Claimed(c.phase.fence, q.start + ttl, q.renewed))]
                         else old(clients)
    {
      ghost var s := View();
      var q, c := rounds[r], clients[t];
      rounds := rounds - {r};
      if |q.renewed| >= Quorum(nodes.Length) && q.start + ttl > c.phase.deadline {
        clients := clients[t := Client(c.ttl, Claimed(c.phase.fence, q.start + ttl, q.renewed))];
      }
      assert AnyAction(EndRenewal(r)) && View() == Next(s, EndRenewal(r));
    }
  }
}
