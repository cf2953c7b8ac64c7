/** What one client's round over the ring sees: the worlds in which it visits the
    nodes in turn, others acting before each visit, and who answers how. */
module RedlockRounds {
  import opened Common
  import opened Redlock

  // What becomes of the request to one node.
  datatype Delivery =
    | Answered
    | TimedOut(executed: bool)
    | Failed

  // Everything a call cannot control: what others do before visit i, and how
  // visit i is delivered.
  datatype Environment = Environment(others: nat -> seq<Action>, delivery: nat -> Delivery)

  // Token t has no part in the action.
  predicate Foreign(s: World, a: Action, t: Token) {
    match a
    case Tick(_) => true
    case RenewNode(r, _) => r in s.rounds && s.rounds[r].token != t
    case SkipRenewal(r) => r in s.rounds && s.rounds[r].token != t
    case EndRenewal(r) => r in s.rounds && s.rounds[r].token != t
    case _ => a.token != t
  }

  predicate Carries(l: Option<Lease>, t: Token) {
    l.Some? && l.value.token == t
  }

  lemma ForeignActionKeepsClient(s: World, a: Action, t: Token)
    requires Foreign(s, a, t) && t in s.clients
    ensures t in Next(s, a).clients && Next(s, a).clients[t] == s.clients[t]
  {
    OtherMovesKeepClient(s, a, t);
  }

  lemma ForeignActionKeepsNodes(s: World, a: Action, t: Token)
    requires Foreign(s, a, t)
    ensures N(Next(s, a)) == N(s) && Next(s, a).now >= s.now
    ensures forall i :: 0 <= i < N(s) && Carries(Next(s, a).nodes[i], t) ==>
              Next(s, a).nodes[i] == s.nodes[i]
  {
  }

  lemma ForeignActionKeepsRounds(s: World, a: Action, t: Token)
    requires Foreign(s, a, t)
    ensures forall r :: r in s.rounds && s.rounds[r].token == t ==>
              r in Next(s, a).rounds && Next(s, a).rounds[r] == s.rounds[r]
  {
  }

  // ----------------------------------------------------------------------
  // The worlds of a round
  // ----------------------------------------------------------------------

  // Others' actions in turn; one that is not enabled, or speaks for t, is void.
  function AfterOthers(w: World, acts: seq<Action>, t: Token): World {
    if acts == [] then w
    else
      var before, a := AfterOthers(w, acts[..|acts| - 1], t), acts[|acts| - 1];
      if Enabled(before, a) && Foreign(before, a, t) then Next(before, a) else before
  }

  // Any step that another client can take, it takes.
  lemma OthersAreUnhindered(w: World, acts: seq<Action>, a: Action, t: Token)
    requires Enabled(AfterOthers(w, acts, t), a)
    requires var before := AfterOthers(w, acts, t);
             a.Tick? || t != if a.RenewNode? || a.SkipRenewal? || a.EndRenewal? then before.rounds[a.round].token else a.token
    ensures AfterOthers(w, acts + [a], t) == Next(AfterOthers(w, acts, t), a)
  {
    assert (acts + [a])[..|acts|] == acts;
  }

  // A late command runs whatever has become of its round.
  lemma LateCommandsRun(s: World, t: Token, i: nat)
    requires t in s.clients && i < N(s)
    ensures AcquireGrants(s.nodes[i], s.now, t) ==>
              Next(s, LateAcquire(t, i)).nodes[i] == Some(Lease(t, s.now + s.clients[t].ttl))
    ensures Owns(s.nodes[i], s.now, t) ==>
              Next(s, LateExtend(t, i)).nodes[i] == Some(Lease(t, s.now + s.clients[t].ttl))
  {
  }

  // This client's own action at node i, as its request to the node is delivered.
  function VisitActions(t: Token, env: Environment): nat -> Action {
    (i: nat) => if env.delivery(i) == TimedOut(false) then SkipNode(t) else AcquireNode(t, env.delivery(i).Answered?)
  }

  function RenewActions(r: nat, env: Environment): nat -> Action {
    (i: nat) => if Reached(env.delivery(i)) then RenewNode(r, env.delivery(i).Answered?) else SkipRenewal(r)
  }

  function ReleaseActions(t: Token, env: Environment): nat -> Action {
    (i: nat) => if Reached(env.delivery(i)) then ReleaseNode(t, i) else Tick(0)
  }

  // The request ran on the node, answered or not.
  predicate Reached(d: Delivery) {
    !d.Failed? && d != TimedOut(false)
  }

  // The world after the visits in which seen[i] was found.
  function AfterVisits(w: World, seen: seq<World>, act: nat -> Action): World {
    if seen == [] then w else Next(seen[|seen| - 1], act(|seen| - 1))
  }

  // seen[i] is what others made of the world after the first i visits.
  ghost predicate SeenAt(w: World, seen: seq<World>, t: Token, env: Environment, act: nat -> Action, i: nat)
    requires i < |seen|
  {
    seen[i] == AfterOthers(AfterVisits(w, seen[..i], act), env.others(i), t)
  }

  // The round begun in w sees exactly these worlds, one per visit.
  ghost predicate Trail(w: World, seen: seq<World>, t: Token, env: Environment, act: nat -> Action) {
    forall i: nat :: i < |seen| ==> SeenAt(w, seen, t, env, act, i)
  }

  lemma TrailGrows(w: World, seen: seq<World>, t: Token, env: Environment, act: nat -> Action, v: World)
    requires Trail(w, seen, t, env, act)
    requires v == AfterOthers(AfterVisits(w, seen, act), env.others(|seen|), t)
    ensures Trail(w, seen + [v], t, env, act)
    ensures AfterVisits(w, seen + [v], act) == Next(v, act(|seen|))
  {
    var all := seen + [v];
    forall i: nat | i < |all| ensures SeenAt(w, all, t, env, act, i) {
      assert all[..i] == seen[..i];
      assert i < |seen| ==> SeenAt(w, seen, t, env, act, i);
      assert seen[..|seen|] == seen;
    }
  }

  // The worlds seen are determined by the start and the environment.
  lemma {:induction false} TrailIsUnique(w: World, seen: seq<World>, seen': seq<World>, t: Token, env: Environment,
                                         act: nat -> Action)
    requires |seen| == |seen'| && Trail(w, seen, t, env, act) && Trail(w, seen', t, env, act)
    ensures seen == seen'
  {
    if seen != [] {
      var n: nat := |seen| - 1;
      TrailPrefix(w, seen, t, env, act);
      TrailPrefix(w, seen', t, env, act);
      TrailIsUnique(w, seen[..n], seen'[..n], t, env, act);
      assert SeenAt(w, seen, t, env, act, n) && SeenAt(w, seen', t, env, act, n);
      assert seen == seen[..n] + [seen[n]] && seen' == seen'[..n] + [seen'[n]];
    }
  }

  lemma TrailPrefix(w: World, seen: seq<World>, t: Token, env: Environment, act: nat -> Action)
    requires seen != [] && Trail(w, seen, t, env, act)
    ensures Trail(w, seen[..|seen| - 1], t, env, act)
  {
    var past := seen[..|seen| - 1];
    forall i: nat | i < |past| ensures SeenAt(w, past, t, env, act, i) {
      assert SeenAt(w, seen, t, env, act, i);
      assert past[..i] == seen[..i];
    }
  }

  // Nobody else acts, and every request is answered.
  ghost predicate Quiet(env: Environment) {
    forall i :: env.others(i) == [] && env.delivery(i) == Answered
  }

  // Nobody else acts and every request is answered, but d milliseconds go by between
  // the last of n visits and the judgement.
  ghost predicate Delayed(env: Environment, n: nat, d: nat) {
    forall i :: env.others(i) == (if i == n && d > 0 then [Tick(d)] else []) && env.delivery(i) == Answered
  }

  // At node i, the own action moves to the next node, touches its own node only and
  // takes no time.
  ghost predicate StepsOn(at: (World, nat) -> bool, act: nat -> Action, w: World, i: nat) {
    at(w, i) && i < N(w) ==>
      var v := Next(w, act(i));
      && at(v, i + 1) && v.now == w.now && N(v) == N(w)
      && forall j :: 0 <= j < N(w) && j != i ==> v.nodes[j] == w.nodes[j]
  }

  ghost predicate OneByOne(at: (World, nat) -> bool, act: nat -> Action) {
    forall w, i :: StepsOn(at, act, w, i)
  }

  // Undisturbed, each node is found as it was when the round began.
  lemma {:induction false} QuietTrail(w: World, seen: seq<World>, t: Token, env: Environment, act: nat -> Action,
                                      at: (World, nat) -> bool, n: nat)
    requires Quiet(env) && Trail(w, seen, t, env, act) && OneByOne(at, act) && at(w, 0)
    requires n <= |seen| && n <= N(w)
    ensures var v := AfterVisits(w, seen[..n], act);
            at(v, n) && v.now == w.now && N(v) == N(w) && forall j :: n <= j < N(w) ==> v.nodes[j] == w.nodes[j]
    ensures forall i :: 0 <= i < n ==> seen[i].now == w.now && N(seen[i]) == N(w) && seen[i].nodes[i] == w.nodes[i]
  {
    if n > 0 {
      QuietTrail(w, seen, t, env, act, at, n - 1);
      assert SeenAt(w, seen, t, env, act, n - 1);
      assert StepsOn(at, act, seen[n - 1], n - 1);
      assert seen[..n][|seen[..n]| - 1] == seen[n - 1];
    }
  }

  // ----------------------------------------------------------------------
  // Who answers how
  // ----------------------------------------------------------------------

  // A claim after a renewal round that could move its window to until.
  function Renewed(c: Client, until: nat, support: set<nat>): Client {
    if c.phase.Claimed? && until > c.phase.deadline then Client(c.ttl, Claimed(c.phase.fence, until, support)) else c
  }

  // The round begun in w with actions act has seen these worlds, one per node.
  ghost predicate Visits(w: World, seen: seq<World>, t: Token, env: Environment, act: nat -> Action) {
    |seen| == N(w) && Trail(w, seen, t, env, act)
  }

  // Node i, when visited, was t's and said so; or was not, and said so.
  ghost predicate AnswersAsOwner(seen: seq<World>, t: Token, env: Environment, i: int) {
    0 <= i < |seen| && i < N(seen[i]) && env.delivery(i).Answered? && Owns(seen[i].nodes[i], seen[i].now, t)
  }

  ghost predicate AnswersAsOther(seen: seq<World>, t: Token, env: Environment, i: int) {
    0 <= i < |seen| && i < N(seen[i]) && env.delivery(i).Answered? && !Owns(seen[i].nodes[i], seen[i].now, t)
  }

  ghost function Renewing(seen: seq<World>, t: Token, env: Environment): set<nat> {
    set i: nat | i < |seen| && AnswersAsOwner(seen, t, env, i)
  }

  ghost predicate SomeOwner(seen: seq<World>, t: Token, env: Environment) {
    exists i :: AnswersAsOwner(seen, t, env, i)
  }

  ghost predicate SomeOther(seen: seq<World>, t: Token, env: Environment) {
    exists i :: AnswersAsOther(seen, t, env, i)
  }

  // Node i, when visited, granted and said so in time.
  ghost predicate Grants(seen: seq<World>, t: Token, env: Environment, i: int) {
    && 0 <= i < |seen| && i < N(seen[i])
    && env.delivery(i).Answered? && AcquireGrants(seen[i].nodes[i], seen[i].now, t)
  }

  ghost function Granting(seen: seq<World>, t: Token, env: Environment): set<nat> {
    set i: nat | i < |seen| && Grants(seen, t, env, i)
  }

  lemma MoreGrants(seen: seq<World>, w: World, t: Token, env: Environment)
    requires |seen| < N(w)
    ensures var i := |seen|;
            Granting(seen + [w], t, env) == Granting(seen, t, env) +
              if env.delivery(i).Answered? && AcquireGrants(w.nodes[i], w.now, t) then {i} else {}
  {
    var i, all := |seen|, seen + [w];
    forall j | j != i ensures Grants(all, t, env, j) <==> Grants(seen, t, env, j) {
    }
    assert Grants(all, t, env, i) <==> env.delivery(i).Answered? && AcquireGrants(w.nodes[i], w.now, t);
  }

  // No node fails outright.
  ghost predicate NoneFails(env: Environment, n: nat) {
    forall i :: 0 <= i < n ==> !env.delivery(i).Failed?
  }

  // The walk begun in w as watched up to node i: who has granted so far.
  ghost predicate Watched(w: World, seen: seq<World>, t: Token, i: nat, acquired: seq<nat>, env: Environment) {
    && |seen| == i && NoneFails(env, i) && SetOf(acquired) == Granting(seen, t, env)
    && Trail(w, seen, t, env, VisitActions(t, env))
  }

  lemma NothingWatched(w: World, t: Token, env: Environment)
    ensures Watched(w, [], t, 0, [], env)
  {
    assert SetOf([]) == {} && Granting([], t, env) == {};
  }

  lemma WatchedNext(w: World, seen: seq<World>, v: World, t: Token, i: nat, acquired: seq<nat>, env: Environment)
    requires Watched(w, seen, t, i, acquired, env) && i < N(v)
    requires forall k :: 0 <= k < |acquired| ==> acquired[k] < i
    requires !env.delivery(i).Failed?
    requires v == AfterOthers(AfterVisits(w, seen, VisitActions(t, env)), env.others(i), t)
    ensures var won := env.delivery(i).Answered? && AcquireGrants(v.nodes[i], v.now, t);
            Watched(w, seen + [v], t, i + 1, acquired + if won then [i] else [], env)
    ensures AfterVisits(w, seen + [v], VisitActions(t, env)) == Next(v, VisitActions(t, env)(i))
  {
    GrantedNext(seen, v, t, i, acquired, env);
    TrailGrows(w, seen, t, env, VisitActions(t, env), v);
  }

  lemma GrantedNext(seen: seq<World>, w: World, t: Token, i: nat, acquired: seq<nat>, env: Environment)
    requires |seen| == i < N(w) && SetOf(acquired) == Granting(seen, t, env)
    requires forall k :: 0 <= k < |acquired| ==> acquired[k] < i
    ensures var won := env.delivery(i).Answered? && AcquireGrants(w.nodes[i], w.now, t);
            SetOf(acquired + if won then [i] else []) == Granting(seen + [w], t, env)
  {
    MoreGrants(seen, w, t, env);
    SetOfGrows(acquired, i);
    assert acquired + [] == acquired;
  }

  lemma MoreOwners(seen: seq<World>, w: World, t: Token, env: Environment)
    requires |seen| < N(w)
    ensures var i, all := |seen|, seen + [w];
            var owner := env.delivery(i).Answered? && Owns(w.nodes[i], w.now, t);
            && Renewing(all, t, env) == Renewing(seen, t, env) + (if owner then {i} else {})
            && |Renewing(all, t, env)| == |Renewing(seen, t, env)| + (if owner then 1 else 0)
            && (SomeOwner(all, t, env) <==> SomeOwner(seen, t, env) || owner)
  {
    var i, all := |seen|, seen + [w];
    forall j | j != i ensures AnswersAsOwner(all, t, env, j) <==> AnswersAsOwner(seen, t, env, j) {
    }
    assert AnswersAsOwner(all, t, env, i) <==> env.delivery(i).Answered? && Owns(w.nodes[i], w.now, t);
    assert i !in Renewing(seen, t, env);
    assert Renewing(all, t, env) == Renewing(seen, t, env) + if AnswersAsOwner(all, t, env, i) then {i} else {};
  }

  lemma MoreOthers(seen: seq<World>, w: World, t: Token, env: Environment)
    requires |seen| < N(w)
    ensures var i := |seen|;
            SomeOther(seen + [w], t, env) <==>
            SomeOther(seen, t, env) || (env.delivery(i).Answered? && !Owns(w.nodes[i], w.now, t))
  {
    var i, all := |seen|, seen + [w];
    forall j | j != i ensures AnswersAsOther(all, t, env, j) <==> AnswersAsOther(seen, t, env, j) {
    }
    assert AnswersAsOther(all, t, env, i) <==> env.delivery(i).Answered? && !Owns(w.nodes[i], w.now, t);
  }

  function SetOf(xs: seq<nat>): set<nat> {
    set x | x in xs
  }

  lemma SkipIsAStep(s: World, t: Token)
    requires Enabled(s, SkipNode(t))
    ensures Next(s, SkipNode(t)) ==
            s.(clients := s.clients[t := Client(s.clients[t].ttl, s.clients[t].phase.(next := s.clients[t].phase.next + 1))])
  {
  }

  lemma VisitIsAStep(s: World, t: Token, heard: bool)
    requires Enabled(s, AcquireNode(t, heard))
    ensures var p := s.clients[t].phase;
            var won := heard && AcquireGrants(s.nodes[p.next], s.now, t);
            Next(s, AcquireNode(t, heard)) ==
            s.(nodes := s.nodes[p.next := LockAfterAcquire(s.nodes[p.next], s.now, t, s.clients[t].ttl)],
               clients := s.clients[t := Client(s.clients[t].ttl,
                 Acquiring(p.start, p.next + 1, if won then p.acquired + {p.next} else p.acquired))])
  {
  }

  lemma ConcludeIsAStep(s: World, t: Token)
    requires Enabled(s, Conclude(t))
    ensures var p := s.clients[t].phase;
            var passed := |p.acquired| >= Quorum(N(s)) && InBudget(p.start, s.now, s.clients[t].ttl);
            Next(s, Conclude(t)) ==
            s.(clients := s.clients[t := Client(s.clients[t].ttl, if passed then Passed(p.start, p.acquired) else Gone)])
  {
  }

  lemma AllocateIsAStep(s: World, t: Token, heard: bool)
    requires Enabled(s, Allocate(t, heard))
    ensures var p := s.clients[t].phase;
            var ttl, fence := s.clients[t].ttl, s.allocator + 1;
            Next(s, Allocate(t, heard)) ==
            if heard then
              s.(allocator := fence,
                 clients := s.clients[t := Client(ttl, Claimed(fence, p.start + ttl, p.acquired))],
                 log := s.log + [Grant(t, fence, s.now, p.start + ttl, p.acquired)])
            else s.(allocator := fence, clients := s.clients[t := Client(ttl, Gone)])
  {
  }

  lemma LeaveIsAStep(s: World, a: Action, t: Token)
    requires (a == Abandon(t) || a == Release(t)) && Enabled(s, a)
    ensures Next(s, a) == s.(clients := s.clients[t := Client(s.clients[t].ttl, Gone)])
  {
  }

  lemma ReleaseNodeIsAStep(s: World, t: Token, i: nat)
    requires Enabled(s, ReleaseNode(t, i))
    ensures Next(s, ReleaseNode(t, i)) == s.(nodes := s.nodes[i := LockAfterRelease(s.nodes[i], s.now, t)])
  {
  }

  lemma RenewIsAStep(s: World, r: nat, heard: bool)
    requires Enabled(s, RenewNode(r, heard))
    ensures var q := s.rounds[r];
            var won := heard && Owns(s.nodes[q.next], s.now, q.token);
            Next(s, RenewNode(r, heard)) ==
            s.(nodes := s.nodes[q.next := LockAfterExtend(s.nodes[q.next], s.now, q.token, q.ttl)],
               rounds := s.rounds[r := Round(q.token, q.ttl, q.start, q.next + 1,
                                             if won then q.renewed + {q.next} else q.renewed)])
  {
  }

  lemma SetOfGrows(xs: seq<nat>, x: nat)
    requires x !in xs
    ensures SetOf(xs + [x]) == SetOf(xs) + {x}
    ensures |SetOf(xs + [x])| == |SetOf(xs)| + 1
  {
    assert SetOf(xs + [x]) == SetOf(xs) + {x};
  }

  // ----------------------------------------------------------------------
  // Undisturbed rounds
  // ----------------------------------------------------------------------

  function FreeNodes(w: World): set<nat> {
    set i: nat | i < N(w) && !Live(w.nodes[i], w.now)
  }

  function OwnedNodes(w: World, t: Token): set<nat> {
    set i: nat | i < N(w) && Owns(w.nodes[i], w.now, t)
  }

  ghost function WalkingAt(t: Token): (World, nat) -> bool {
    (w: World, i: nat) => t in w.clients && w.clients[t].phase.Acquiring? && w.clients[t].phase.next == i
  }

  ghost function RenewingAt(t: Token, r: nat): (World, nat) -> bool {
    (w: World, i: nat) => r in w.rounds && w.rounds[r].token == t && w.rounds[r].next == i && t in w.clients
  }

  ghost function ReleasingAt(t: Token): (World, nat) -> bool {
    (w: World, _: nat) => t in w.clients && w.clients[t].phase.Gone?
  }

  lemma WalkIsOneByOne(t: Token, env: Environment)
    requires Quiet(env)
    ensures OneByOne(WalkingAt(t), VisitActions(t, env))
  {
    forall w, i ensures StepsOn(WalkingAt(t), VisitActions(t, env), w, i) {
      assert VisitActions(t, env)(i) == AcquireNode(t, true);
    }
  }

  lemma RenewalIsOneByOne(t: Token, r: nat, env: Environment)
    requires Quiet(env)
    ensures OneByOne(RenewingAt(t, r), RenewActions(r, env))
  {
    forall w, i ensures StepsOn(RenewingAt(t, r), RenewActions(r, env), w, i) {
      assert RenewActions(r, env)(i) == RenewNode(r, true);
    }
  }

  lemma ReleaseIsOneByOne(t: Token, env: Environment)
    requires Quiet(env)
    ensures OneByOne(ReleasingAt(t), ReleaseActions(t, env))
  {
    forall w, i ensures StepsOn(ReleasingAt(t), ReleaseActions(t, env), w, i) {
      assert ReleaseActions(t, env)(i) == ReleaseNode(t, i);
    }
  }

  // Undisturbed, the nodes that grant are those free at the start.
  lemma QuietWalk(w: World, seen: seq<World>, t: Token, env: Environment)
    requires Quiet(env) && Trail(w, seen, t, env, VisitActions(t, env)) && |seen| == N(w)
    requires WalkingAt(t)(w, 0) && forall i :: 0 <= i < N(w) ==> !Carries(w.nodes[i], t)
    ensures Granting(seen, t, env) == FreeNodes(w)
    ensures AfterVisits(w, seen, VisitActions(t, env)).now == w.now
  {
    WalkIsOneByOne(t, env);
    QuietTrail(w, seen, t, env, VisitActions(t, env), WalkingAt(t), N(w));
    assert seen[..N(w)] == seen;
    forall i: nat | i < N(w) ensures Grants(seen, t, env, i) <==> !Live(w.nodes[i], w.now) {
      assert env.others(i) == [];
    }
  }

  // The same for a round that is undisturbed but for a delay after its last visit.
  lemma DelayedWalk(w: World, seen: seq<World>, t: Token, env: Environment, d: nat)
    requires Delayed(env, N(w), d) && Trail(w, seen, t, env, VisitActions(t, env)) && |seen| == N(w)
    requires WalkingAt(t)(w, 0) && forall i :: 0 <= i < N(w) ==> !Carries(w.nodes[i], t)
    ensures Granting(seen, t, env) == FreeNodes(w)
    ensures AfterVisits(w, seen, VisitActions(t, env)).now == w.now
  {
    var calm := Environment(_ => [], _ => Answered);
    var act, calmly := VisitActions(t, env), VisitActions(t, calm);
    assert forall i: nat :: act(i) == AcquireNode(t, true) && calmly(i) == AcquireNode(t, true);
    forall i: nat | i < |seen| ensures SeenAt(w, seen, t, calm, calmly, i) {
      assert SeenAt(w, seen, t, env, act, i);
    }
    QuietWalk(w, seen, t, calm);
    assert forall i :: Grants(seen, t, env, i) <==> Grants(seen, t, calm, i);
    assert Granting(seen, t, env) == Granting(seen, t, calm);
  }

  // A delay is just that.
  lemma DelayTicks(w: World, d: nat, t: Token)
    ensures AfterOthers(w, if d > 0 then [Tick(d)] else [], t).now == w.now + d
  {
    assert AfterOthers(w, [], t) == w;
    assert d > 0 ==> [Tick(d)][..0] == [];
  }

  // Undisturbed, the nodes that renew are those owned at the start.
  lemma QuietRenewal(w: World, seen: seq<World>, t: Token, r: nat, env: Environment)
    requires Quiet(env) && Trail(w, seen, t, env, RenewActions(r, env)) && |seen| == N(w)
    requires RenewingAt(t, r)(w, 0)
    ensures Renewing(seen, t, env) == OwnedNodes(w, t)
  {
    RenewalIsOneByOne(t, r, env);
    QuietTrail(w, seen, t, env, RenewActions(r, env), RenewingAt(t, r), N(w));
    forall i: nat | i < N(w) ensures AnswersAsOwner(seen, t, env, i) <==> Owns(w.nodes[i], w.now, t) {
      assert env.others(i) == [];
    }
  }

  // Undisturbed, a release meets its own lease iff some node was owned at the start.
  lemma QuietRelease(w: World, seen: seq<World>, t: Token, env: Environment)
    requires Quiet(env) && Trail(w, seen, t, env, ReleaseActions(t, env)) && |seen| == N(w)
    requires ReleasingAt(t)(w, 0)
    ensures SomeOwner(seen, t, env) <==> OwnedNodes(w, t) != {}
  {
    ReleaseIsOneByOne(t, env);
    QuietTrail(w, seen, t, env, ReleaseActions(t, env), ReleasingAt(t), N(w));
    forall i: nat | i < N(w) ensures AnswersAsOwner(seen, t, env, i) <==> Owns(w.nodes[i], w.now, t) {
      assert env.others(i) == [];
    }
    if OwnedNodes(w, t) != {} {
      var i :| i in OwnedNodes(w, t);
      assert AnswersAsOwner(seen, t, env, i);
    }
    if SomeOwner(seen, t, env) {
      var i :| AnswersAsOwner(seen, t, env, i);
      assert i in OwnedNodes(w, t);
    }
  }
}
