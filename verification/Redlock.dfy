/** The Redlock quorum protocol as a timed state machine: N independent lock
    stores under one clock, clients interleaving node by node, and a single
    fence allocator. */
module Redlock {
  import opened Common
  import Mutex

  // Where one acquisition (identified by its fresh token) stands.
  datatype Phase =
    // Still walking the ring; `acquired` are the nodes that answered 1 or 2.
    | Acquiring(start: nat, next: nat, acquired: set<nat>)
    // Quorum reached in time; the fence is not allocated yet.
    | Passed(start: nat, acquired: set<nat>)
    // The handle exists and is unreleased. The claim window is open until
    // `deadline`: start of the granting or best successful renewal round plus
    // TTL; `support` are the nodes that answered in that round.
    | Claimed(fence: nat, deadline: nat, support: set<nat>)
    // Rolled back, failed or released.
    | Gone

  datatype Client = Client(ttl: nat, phase: Phase)

  // One renewal round in flight (watchdog or manual extend).
  datatype Round = Round(token: Token, ttl: nat, start: nat, next: nat, renewed: set<nat>)

  // A fence handed out: when, for which round, and whether in time.
  datatype Grant = Grant(token: Token, fence: nat, at: nat, deadline: nat, support: set<nat>)

  datatype World = World(
    now: nat,
    nodes: seq<Option<Lease>>,
    clients: map<Token, Client>,
    rounds: map<nat, Round>,
    allocator: nat,
    log: seq<Grant>,
    // An acquire script ran on a node after its round had moved past it.
    delayed: bool,
    // A renewal round was started with a TTL other than the acquisition's.
    mixed: bool)

  datatype Action =
    | Tick(d: nat)
    | Begin(token: Token, ttl: nat)
    // The acquire script runs on the next node; `heard` is false when the
    // per-node slice elapses before the answer.
    | AcquireNode(token: Token, heard: bool)
    // The next node never sees the request.
    | SkipNode(token: Token)
    // A timed-out acquire or extend command runs late, or again.
    | LateAcquire(token: Token, node: nat)
    | LateExtend(token: Token, node: nat)
    | Conclude(token: Token)
    // INCR on the allocator; unheard, the fence is lost and the call fails.
    | Allocate(token: Token, heard: bool)
    // Early error return: leases may stay behind until their TTL.
    | Abandon(token: Token)
    | Release(token: Token)
    // One node of a rollback or release loop.
    | ReleaseNode(token: Token, node: nat)
    | BeginRenewal(round: nat, token: Token, ttl: nat)
    | RenewNode(round: nat, heard: bool)
    | SkipRenewal(round: nat)
    | EndRenewal(round: nat)

  function Quorum(n: nat): nat {
    n / 2 + 1
  }

  function Init(n: nat): World {
    World(0, seq(n, _ => None), map[], map[], 0, [], false, false)
  }

  // The round used less than nine tenths of the lease.
  predicate InBudget(start: nat, now: nat, ttl: nat)
    requires start <= now
  {
    10 * (now - start) < 9 * ttl
  }

  function N(s: World): nat {
    |s.nodes|
  }

  function PhaseOf(s: World, t: Token): Phase {
    if t in s.clients then s.clients[t].phase else Gone
  }

  function WithPhase(s: World, t: Token, p: Phase): World
    requires t in s.clients
  {
    s.(clients := s.clients[t := s.clients[t].(phase := p)])
  }

  // acquire.lua, extend.lua and release.lua on one node's lock key.
  function Acquired(s: World, i: nat, t: Token, ttl: nat): seq<Option<Lease>>
    requires i < N(s)
  {
    s.nodes[i := LockAfterAcquire(s.nodes[i], s.now, t, ttl)]
  }

  function Extended(s: World, i: nat, t: Token, ttl: nat): seq<Option<Lease>>
    requires i < N(s)
  {
    s.nodes[i := LockAfterExtend(s.nodes[i], s.now, t, ttl)]
  }

  function Released(s: World, i: nat, t: Token): seq<Option<Lease>>
    requires i < N(s)
  {
    s.nodes[i := LockAfterRelease(s.nodes[i], s.now, t)]
  }

  predicate Enabled(s: World, a: Action) {
    match a
    case Tick(_) => true
    case Begin(t, ttl) => t !in s.clients && ttl >= Mutex.MIN_TTL
    case AcquireNode(t, _) => PhaseOf(s, t).Acquiring? && PhaseOf(s, t).next < N(s)
    case SkipNode(t) => PhaseOf(s, t).Acquiring? && PhaseOf(s, t).next < N(s)
    case LateAcquire(t, i) => t in s.clients && i < N(s)
    case LateExtend(t, i) => t in s.clients && i < N(s)
    case Conclude(t) =>
      PhaseOf(s, t).Acquiring? && PhaseOf(s, t).next == N(s) && PhaseOf(s, t).start <= s.now
    case Allocate(t, _) => PhaseOf(s, t).Passed?
    case Abandon(t) => PhaseOf(s, t).Acquiring? || PhaseOf(s, t).Passed?
    case Release(t) => PhaseOf(s, t).Claimed?
    case ReleaseNode(t, i) => t in s.clients && PhaseOf(s, t).Gone? && i < N(s)
    case BeginRenewal(r, t, ttl) => r !in s.rounds && PhaseOf(s, t).Claimed? && ttl >= Mutex.MIN_TTL
    case RenewNode(r, _) =>
      r in s.rounds && s.rounds[r].next < N(s) && s.rounds[r].token in s.clients
    case SkipRenewal(r) => r in s.rounds && s.rounds[r].next < N(s)
    case EndRenewal(r) =>
      r in s.rounds && s.rounds[r].next == N(s) && s.rounds[r].token in s.clients
  }

  // A disabled action changes nothing.
  function Next(s: World, a: Action): World {
    if !Enabled(s, a) then s else
    match a
    case Tick(d) => s.(now := s.now + d)
    case Begin(t, ttl) => s.(clients := s.clients[t := Client(ttl, Acquiring(s.now, 0, {}))])
    case AcquireNode(t, heard) => AfterAcquireNode(s, t, heard)
    case SkipNode(t) =>
      var p := PhaseOf(s, t);
      WithPhase(s, t, p.(next := p.next + 1))
    case LateAcquire(t, i) =>
      s.(nodes := Acquired(s, i, t, s.clients[t].ttl), delayed := true)
    case LateExtend(t, i) => s.(nodes := Extended(s, i, t, s.clients[t].ttl))
    case Conclude(t) =>
      var p := PhaseOf(s, t);
      if |p.acquired| >= Quorum(N(s)) && InBudget(p.start, s.now, s.clients[t].ttl)
      then WithPhase(s, t, Passed(p.start, p.acquired))
      else WithPhase(s, t, Gone)
    case Allocate(t, heard) => AfterAllocate(s, t, heard)
    case Abandon(t) => WithPhase(s, t, Gone)
    case Release(t) => WithPhase(s, t, Gone)
    case ReleaseNode(t, i) => s.(nodes := Released(s, i, t))
    case BeginRenewal(r, t, ttl) =>
      s.(rounds := s.rounds[r := Round(t, ttl, s.now, 0, {})], mixed := s.mixed || ttl != s.clients[t].ttl)
    case RenewNode(r, heard) => AfterRenewNode(s, r, heard)
    case SkipRenewal(r) => s.(rounds := s.rounds[r := s.rounds[r].(next := s.rounds[r].next + 1)])
    case EndRenewal(r) => AfterEndRenewal(s, r)
  }

  function AfterAcquireNode(s: World, t: Token, heard: bool): World
    requires Enabled(s, AcquireNode(t, heard))
  {
    var p := PhaseOf(s, t);
    var won := heard && AcquireGrants(s.nodes[p.next], s.now, t);
    WithPhase(s, t, Acquiring(p.start, p.next + 1, if won then p.acquired + {p.next} else p.acquired))
    .(nodes := Acquired(s, p.next, t, s.clients[t].ttl))
  }

  function AfterAllocate(s: World, t: Token, heard: bool): World
    requires Enabled(s, Allocate(t, heard))
  {
    var p := PhaseOf(s, t);
    var fence := s.allocator + 1;
    var deadline := p.start + s.clients[t].ttl;
    if heard then
      WithPhase(s, t, Claimed(fence, deadline, p.acquired))
      .(allocator := fence, log := s.log + [Grant(t, fence, s.now, deadline, p.acquired)])
    else WithPhase(s, t, Gone).(allocator := fence)
  }

  function AfterRenewNode(s: World, r: nat, heard: bool): World
    requires Enabled(s, RenewNode(r, heard))
  {
    var round := s.rounds[r];
    var i := round.next;
    var won := heard && Owns(s.nodes[i], s.now, round.token);
    s.(nodes := Extended(s, i, round.token, round.ttl),
       rounds := s.rounds[r := Round(round.token, round.ttl, round.start, i + 1,
                                     if won then round.renewed + {i} else round.renewed)])
  }

  // A quorum of renewals moves the window; fewer leave the claim as it was.
  function AfterEndRenewal(s: World, r: nat): World
    requires Enabled(s, EndRenewal(r))
  {
    var round := s.rounds[r];
    var p := PhaseOf(s, round.token);
    var until := round.start + round.ttl;
    var rest := s.(rounds := s.rounds - {r});
    if p.Claimed? && |round.renewed| >= Quorum(N(s)) && until > p.deadline
    then WithPhase(rest, round.token, Claimed(p.fence, until, round.renewed))
    else rest
  }

  function Exec(s: World, acts: seq<Action>): World {
    if acts == [] then s else Next(Exec(s, acts[..|acts| - 1]), acts[|acts| - 1])
  }

  // P is kept by every enabled action that ok admits. Being reachable is one
  // such P; a method that keeps every such P only takes protocol steps.
  ghost predicate Closed(P: World -> bool, ok: Action -> bool) {
    forall w: World, a: Action {:trigger Next(w, a)} :: P(w) && ok(a) && Enabled(w, a) ==> P(Next(w, a))
  }

  function AnyAction(a: Action): bool {
    true
  }

  ghost predicate Reaches(n: nat, acts: seq<Action>, ok: Action -> bool, w: World) {
    w == Exec(Init(n), acts) && forall k :: 0 <= k < |acts| ==> ok(acts[k])
  }

  ghost predicate Reachable(n: nat, ok: Action -> bool, w: World) {
    exists acts :: Reaches(n, acts, ok, w)
  }

  lemma ReachableIsClosed(n: nat, ok: Action -> bool)
    ensures Closed(w => Reachable(n, ok, w), ok)
    ensures Reachable(n, ok, Init(n))
  {
    assert Reaches(n, [], ok, Init(n));
    forall w: World, a: Action | Reachable(n, ok, w) && ok(a) && Enabled(w, a)
      ensures Reachable(n, ok, Next(w, a))
    {
      var acts :| Reaches(n, acts, ok, w);
      assert (acts + [a])[..|acts|] == acts;
      assert Reaches(n, acts + [a], ok, Next(w, a));
    }
  }

  // ----------------------------------------------------------------------
  // Invariant
  // ----------------------------------------------------------------------

  // While `until` lies ahead, t's lease sits on every node of `held` and lasts
  // at least that long.
  ghost predicate Backed(s: World, t: Token, held: set<nat>, until: nat) {
    && held <= Range(N(s))
    && (s.now < until ==> forall i :: i in held ==>
          i < N(s) && s.nodes[i].Some? && s.nodes[i].value.token == t && s.nodes[i].value.expiry >= until)
  }

  ghost predicate PhaseInv(s: World, t: Token, c: Client) {
    match c.phase
    case Acquiring(start, next, acquired) =>
      start <= s.now && next <= N(s) && Backed(s, t, acquired, start + c.ttl)
    case Passed(start, acquired) =>
      start <= s.now && |acquired| >= Quorum(N(s)) && Backed(s, t, acquired, start + c.ttl)
    case Claimed(fence, deadline, support) =>
      && deadline <= s.now + c.ttl && 1 <= fence <= s.allocator
      && |support| >= Quorum(N(s)) && Backed(s, t, support, deadline)
    case Gone => true
  }

  ghost predicate RoundInv(s: World, r: Round) {
    && r.start <= s.now && r.next <= N(s) && r.token in s.clients && r.ttl == s.clients[r.token].ttl
    && (s.clients[r.token].phase.Claimed? || s.clients[r.token].phase.Gone?)
    && r.renewed <= Range(N(s))
    && (s.clients[r.token].phase.Claimed? ==>
          Backed(s, r.token, r.renewed, r.start + s.clients[r.token].ttl))
  }

  // Fences increase in allocation order.
  ghost predicate Numbered(s: World) {
    && (forall k :: 0 <= k < |s.log| ==> s.log[k].fence <= s.allocator)
    && (forall i, j :: 0 <= i < j < |s.log| ==> s.log[i].fence < s.log[j].fence)
  }

  // An allocated fence names its claim, and the log entry of the claim is its own.
  ghost predicate GrantInv(s: World, g: Grant) {
    && g.token in s.clients
    && (s.clients[g.token].phase.Claimed? || s.clients[g.token].phase.Gone?)
    && (s.clients[g.token].phase.Claimed? ==> s.clients[g.token].phase.fence == g.fence)
    && g.support <= Range(N(s)) && |g.support| >= Quorum(N(s))
  }

  ghost predicate ClaimInv(s: World, t: Token, c: Client) {
    c.phase.Claimed? ==>
      exists k :: 0 <= k < |s.log| && s.log[k].token == t && s.log[k].fence == c.phase.fence
  }

  ghost predicate LogInv(s: World) {
    && Numbered(s)
    && (forall k :: 0 <= k < |s.log| ==> GrantInv(s, s.log[k]))
    && (forall t :: t in s.clients ==> ClaimInv(s, t, s.clients[t]))
  }

  ghost predicate Inv(s: World) {
    && (forall t :: t in s.clients ==> PhaseInv(s, t, s.clients[t]))
    && (forall r :: r in s.rounds ==> RoundInv(s, s.rounds[r]))
    && LogInv(s)
  }

  // ----------------------------------------------------------------------
  // Node-level preservation
  // ----------------------------------------------------------------------

  // What the scripts may do to one node: nobody takes a lease from a live
  // owner but the owner itself, and only the owner's own scripts touch it.
  ghost predicate GentleStep(s: World, s': World, t: Token, ttl: nat) {
    && s.now <= s'.now && N(s) == N(s')
    && forall i :: 0 <= i < N(s) && s'.nodes[i] != s.nodes[i] ==>
         Owns(s.nodes[i], s.now, t) ==>
           s'.now == s.now && s'.nodes[i] == Some(Lease(t, s.now + ttl))
  }

  lemma BackedSurvives(s: World, s': World, t: Token, ttl: nat, held: set<nat>, until: nat)
    requires Backed(s, t, held, until) && until <= s.now + ttl
    requires GentleStep(s, s', t, ttl)
    ensures Backed(s', t, held, until)
  {
  }

  // Every action except t's own node releases is gentle on t's leases.
  lemma ActionIsGentle(s: World, a: Action, t: Token)
    requires t in s.clients
    requires !(a.ReleaseNode? && a.token == t)
    requires a.RenewNode? && a.round in s.rounds ==> RoundInv(s, s.rounds[a.round])
    ensures GentleStep(s, Next(s, a), t, s.clients[t].ttl)
  {
    if a.RenewNode? {
      RenewNodeIsGentle(s, a.round, a.heard, t);
    } else {
      OtherActionIsGentle(s, a, t);
    }
  }

  lemma RenewNodeIsGentle(s: World, r: nat, heard: bool, t: Token)
    requires t in s.clients && (r in s.rounds ==> RoundInv(s, s.rounds[r]))
    ensures GentleStep(s, Next(s, RenewNode(r, heard)), t, s.clients[t].ttl)
  {
  }

  lemma OtherActionIsGentle(s: World, a: Action, t: Token)
    requires t in s.clients && !(a.ReleaseNode? && a.token == t) && !a.RenewNode?
    ensures GentleStep(s, Next(s, a), t, s.clients[t].ttl)
  {
  }

  lemma OthersKeepTheirPhase(s: World, a: Action, t: Token)
    requires t in s.clients
    ensures t in Next(s, a).clients && Next(s, a).clients[t].ttl == s.clients[t].ttl
    ensures s.clients[t].phase.Gone? ==> Next(s, a).clients[t].phase.Gone?
    ensures s.clients[t].phase.Claimed? ==>
              Next(s, a).clients[t].phase.Gone?
              || (Next(s, a).clients[t].phase.Claimed?
                  && Next(s, a).clients[t].phase.fence == s.clients[t].phase.fence)
  {
  }

  // The unchanged clients: only the nodes under them may have moved.
  lemma PhaseSurvives(s: World, s': World, t: Token, c: Client)
    requires PhaseInv(s, t, c) && GentleStep(s, s', t, c.ttl) && s.allocator <= s'.allocator
    ensures PhaseInv(s', t, c)
  {
    match c.phase
    case Acquiring(start, next, acquired) => BackedSurvives(s, s', t, c.ttl, acquired, start + c.ttl);
    case Passed(start, acquired) => BackedSurvives(s, s', t, c.ttl, acquired, start + c.ttl);
    case Claimed(fence, deadline, support) => BackedSurvives(s, s', t, c.ttl, support, deadline);
    case Gone =>
  }

  // A node that just granted or renewed for t joins the set that backs it.
  lemma BackedGrows(s: World, t: Token, held: set<nat>, until: nat, i: nat)
    requires Backed(s, t, held, until)
    requires i < N(s)
    requires s.nodes[i].Some? && s.nodes[i].value.token == t && s.nodes[i].value.expiry >= until
    ensures Backed(s, t, held + {i}, until)
  {
  }

  lemma AcquireNodeKeepsPhase(s: World, t: Token, heard: bool)
    requires Inv(s) && Enabled(s, AcquireNode(t, heard))
    ensures var s' := Next(s, AcquireNode(t, heard)); PhaseInv(s', t, s'.clients[t])
  {
    var a := AcquireNode(t, heard);
    var c, s' := s.clients[t], Next(s, a);
    assert PhaseInv(s, t, c);
    ActionIsGentle(s, a, t);
    PhaseSurvives(s, s', t, c);
    var p := c.phase;
    if heard && AcquireGrants(s.nodes[p.next], s.now, t) {
      BackedGrows(s', t, p.acquired, p.start + c.ttl, p.next);
    }
  }

  lemma EndRenewalKeepsPhase(s: World, r: nat)
    requires Inv(s) && Enabled(s, EndRenewal(r))
    ensures var s' := Next(s, EndRenewal(r));
            PhaseInv(s', s.rounds[r].token, s'.clients[s.rounds[r].token])
  {
    var t := s.rounds[r].token;
    assert PhaseInv(s, t, s.clients[t]);
    assert RoundInv(s, s.rounds[r]);
  }

  // Actions by t that move only its own phase.
  lemma OwnMoveKeepsPhase(s: World, a: Action, t: Token)
    requires Inv(s) && Enabled(s, a)
    requires (a == SkipNode(t) || a == Conclude(t) || (a.Allocate? && a.token == t) || a == Abandon(t) || a == Release(t))
    ensures PhaseInv(Next(s, a), t, Next(s, a).clients[t])
  {
    assert PhaseInv(s, t, s.clients[t]);
    match a
    case SkipNode(_) => SkipKeepsPhase(s, t);
    case Conclude(_) => ConcludeKeepsPhase(s, t);
    case Allocate(_, heard) => AllocateKeepsPhase(s, t, heard);
    case _ =>
  }

  lemma SkipKeepsPhase(s: World, t: Token)
    requires Enabled(s, SkipNode(t)) && PhaseInv(s, t, s.clients[t])
    ensures PhaseInv(Next(s, SkipNode(t)), t, Next(s, SkipNode(t)).clients[t])
  {
  }

  lemma ConcludeKeepsPhase(s: World, t: Token)
    requires Enabled(s, Conclude(t)) && PhaseInv(s, t, s.clients[t])
    ensures PhaseInv(Next(s, Conclude(t)), t, Next(s, Conclude(t)).clients[t])
  {
  }

  lemma AllocateKeepsPhase(s: World, t: Token, heard: bool)
    requires Enabled(s, Allocate(t, heard)) && PhaseInv(s, t, s.clients[t])
    ensures PhaseInv(Next(s, Allocate(t, heard)), t, Next(s, Allocate(t, heard)).clients[t])
  {
  }

  // The action whose effect on t's phase is its own, not the environment's.
  predicate Moves(s: World, a: Action, t: Token) {
    match a
    case Begin(u, _) => u == t
    case AcquireNode(u, _) => u == t
    case SkipNode(u) => u == t
    case Conclude(u) => u == t
    case Allocate(u, _) => u == t
    case Abandon(u) => u == t
    case Release(u) => u == t
    case EndRenewal(r) => r in s.rounds && s.rounds[r].token == t
    case _ => false
  }

  lemma OtherMovesKeepClient(s: World, a: Action, t: Token)
    requires !Moves(s, a, t)
    ensures t in Next(s, a).clients <==> t in s.clients
    ensures t in s.clients ==> Next(s, a).clients[t] == s.clients[t]
    ensures s.allocator <= Next(s, a).allocator
  {
    if a.EndRenewal? {
      EndRenewalKeepsOthers(s, a.round, t);
    } else {
      OtherActionKeepsClient(s, a, t);
    }
  }

  lemma EndRenewalKeepsOthers(s: World, r: nat, t: Token)
    requires !Moves(s, EndRenewal(r), t)
    ensures var v := Next(s, EndRenewal(r));
            (t in v.clients <==> t in s.clients) && (t in s.clients ==> v.clients[t] == s.clients[t]) && v.allocator == s.allocator
  {
  }

  lemma OtherActionKeepsClient(s: World, a: Action, t: Token)
    requires !Moves(s, a, t) && !a.EndRenewal?
    ensures var v := Next(s, a);
            (t in v.clients <==> t in s.clients) && (t in s.clients ==> v.clients[t] == s.clients[t]) && s.allocator <= v.allocator
  {
  }

  lemma StepKeepsPhase(s: World, a: Action, t: Token)
    requires Inv(s) && Enabled(s, a) && t in Next(s, a).clients
    ensures PhaseInv(Next(s, a), t, Next(s, a).clients[t])
  {
    if Moves(s, a, t) {
      match a
      case Begin(_, _) =>
      case AcquireNode(_, heard) => AcquireNodeKeepsPhase(s, t, heard);
      case EndRenewal(r) => EndRenewalKeepsPhase(s, r);
      case _ => OwnMoveKeepsPhase(s, a, t);
    } else {
      OtherMovesKeepClient(s, a, t);
      OtherMovesKeepPhase(s, a, t, s.clients[t]);
    }
  }

  lemma OtherMovesKeepPhase(s: World, a: Action, t: Token, c: Client)
    requires Inv(s) && Enabled(s, a) && t in s.clients && s.clients[t] == c
    requires !Moves(s, a, t)
    ensures PhaseInv(Next(s, a), t, c)
  {
    assert PhaseInv(s, t, c);
    if !(a.ReleaseNode? && a.token == t) {
      ActionIsGentle(s, a, t);
      OtherMovesKeepClient(s, a, t);
      PhaseSurvives(s, Next(s, a), t, c);
    }
  }

  lemma RenewNodeKeepsRound(s: World, r: nat, heard: bool)
    requires Inv(s) && Enabled(s, RenewNode(r, heard))
    ensures RoundInv(Next(s, RenewNode(r, heard)), Next(s, RenewNode(r, heard)).rounds[r])
  {
    var a := RenewNode(r, heard);
    var s', round := Next(s, a), s.rounds[r];
    var t := round.token;
    assert RoundInv(s, round);
    ActionIsGentle(s, a, t);
    if s.clients[t].phase.Claimed? {
      var until := round.start + s.clients[t].ttl;
      BackedSurvives(s, s', t, s.clients[t].ttl, round.renewed, until);
      if heard && Owns(s.nodes[round.next], s.now, t) {
        BackedGrows(s', t, round.renewed, until, round.next);
      }
    }
  }

  lemma RingSizeIsFixed(s: World, a: Action)
    ensures N(Next(s, a)) == N(s)
  {
  }

  // A round no action of its own touched.
  lemma RoundSurvives(s: World, a: Action, round: Round)
    requires Inv(s) && Enabled(s, a) && RoundInv(s, round)
    ensures RoundInv(Next(s, a), round)
  {
    var t := round.token;
    OthersKeepTheirPhase(s, a, t);
    RingSizeIsFixed(s, a);
    if Next(s, a).clients[t].phase.Claimed? {
      ActionIsGentle(s, a, t);
      BackedSurvives(s, Next(s, a), t, s.clients[t].ttl, round.renewed, round.start + s.clients[t].ttl);
    }
  }

  lemma StepKeepsRound(s: World, a: Action, r: nat)
    requires Inv(s) && Enabled(s, a) && !Next(s, a).mixed && r in Next(s, a).rounds
    ensures RoundInv(Next(s, a), Next(s, a).rounds[r])
  {
    if a.RenewNode? && a.round == r {
      RenewNodeKeepsRound(s, r, a.heard);
    } else if r in s.rounds {
      assert RoundInv(s, s.rounds[r]);
      RoundSurvives(s, a, s.rounds[r]);
    }
  }

  lemma StepKeepsGrant(s: World, a: Action, g: Grant)
    requires Enabled(s, a) && GrantInv(s, g)
    ensures GrantInv(Next(s, a), g)
  {
    OthersKeepTheirPhase(s, a, g.token);
  }

  lemma StepKeepsClaim(s: World, a: Action, t: Token)
    requires Enabled(s, a) && t in Next(s, a).clients
    requires t in s.clients ==> ClaimInv(s, t, s.clients[t])
    ensures ClaimInv(Next(s, a), t, Next(s, a).clients[t])
  {
    assert s.log <= Next(s, a).log;
    if a == Allocate(t, true) {
      assert Next(s, a).log[|s.log|].token == t;
    } else if t in s.clients {
      OthersKeepTheirPhase(s, a, t);
      if !Moves(s, a, t) {
        OtherMovesKeepClient(s, a, t);
      }
    }
  }

  // The log grows at most by the grant of an allocation.
  lemma LogGrows(s: World, a: Action)
    requires Inv(s) && Enabled(s, a)
    ensures s.log <= Next(s, a).log && |Next(s, a).log| <= |s.log| + 1
    ensures |Next(s, a).log| == |s.log| + 1 ==> GrantInv(Next(s, a), Next(s, a).log[|s.log|])
  {
    if a.Allocate? {
      assert PhaseInv(s, a.token, s.clients[a.token]);
    }
  }

  lemma StepKeepsLog(s: World, a: Action)
    requires Inv(s) && Enabled(s, a)
    ensures LogInv(Next(s, a))
  {
    var s' := Next(s, a);
    LogGrows(s, a);
    StepKeepsNumbered(s, a);
    forall k | 0 <= k < |s'.log| ensures GrantInv(s', s'.log[k]) {
      if k < |s.log| {
        StepKeepsGrant(s, a, s.log[k]);
      }
    }
    forall t | t in s'.clients ensures ClaimInv(s', t, s'.clients[t]) {
      StepKeepsClaim(s, a, t);
    }
  }

  lemma StepKeepsInv(s: World, a: Action)
    requires Inv(s) && !Next(s, a).mixed
    ensures Inv(Next(s, a))
  {
    if Enabled(s, a) {
      forall t | t in Next(s, a).clients ensures PhaseInv(Next(s, a), t, Next(s, a).clients[t]) {
        StepKeepsPhase(s, a, t);
      }
      forall r | r in Next(s, a).rounds ensures RoundInv(Next(s, a), Next(s, a).rounds[r]) {
        StepKeepsRound(s, a, r);
      }
      StepKeepsLog(s, a);
    }
  }

  lemma {:induction false} AlwaysInv(n: nat, acts: seq<Action>)
    requires !Exec(Init(n), acts).mixed
    ensures Inv(Exec(Init(n), acts)) && N(Exec(Init(n), acts)) == n
  {
    if acts != [] {
      var s, a := Exec(Init(n), acts[..|acts| - 1]), acts[|acts| - 1];
      assert Exec(Init(n), acts) == Next(s, a);
      if s.mixed {
        FlagsStick(s, a);
        assert false;
      }
      AlwaysInv(n, acts[..|acts| - 1]);
      StepKeepsInv(s, a);
      RingSizeIsFixed(s, a);
    }
  }

  // ----------------------------------------------------------------------
  // Mutual exclusion
  // ----------------------------------------------------------------------

  // An unreleased quorum claim whose window is still open.
  predicate Open(s: World, t: Token) {
    t in s.clients && s.clients[t].phase.Claimed? && s.now < s.clients[t].phase.deadline
  }

  lemma QuorumsMeet(n: nat, a: set<nat>, b: set<nat>) returns (i: nat)
    requires a <= Range(n) && b <= Range(n) && |a| >= Quorum(n) && |b| >= Quorum(n)
    ensures i in a && i in b && i < n
  {
    i := MajoritiesMeet(a, b, n);
  }

  lemma OpenClaimsCoincide(s: World, t: Token, u: Token)
    requires Inv(s) && Open(s, t) && Open(s, u)
    ensures t == u
  {
    assert PhaseInv(s, t, s.clients[t]) && PhaseInv(s, u, s.clients[u]);
    var i := QuorumsMeet(N(s), s.clients[t].phase.support, s.clients[u].phase.support);
  }

  // Over every ring size and every interleaving of node-by-node acquisition,
  // same-TTL renewal, rollback and release with clock ticks, lost answers and
  // late commands, two tokens never both have an open claim.
  lemma MutualExclusion(n: nat, acts: seq<Action>, t: Token, u: Token)
    requires !Exec(Init(n), acts).mixed
    requires Open(Exec(Init(n), acts), t) && Open(Exec(Init(n), acts), u)
    ensures t == u
  {
    AlwaysInv(n, acts);
    OpenClaimsCoincide(Exec(Init(n), acts), t, u);
  }

  // For the client calls, which keep every closed property: reachability is
  // one, and it carries exclusion with it.
  lemma ReachableExcludes(n: nat)
    ensures Closed(w => Reachable(n, AnyAction, w), AnyAction) && Reachable(n, AnyAction, Init(n))
    ensures forall w, t, u :: Reachable(n, AnyAction, w) && !w.mixed && Open(w, t) && Open(w, u) ==> t == u
  {
    ReachableIsClosed(n, AnyAction);
    forall w, t, u | Reachable(n, AnyAction, w) && !w.mixed && Open(w, t) && Open(w, u) ensures t == u {
      var acts :| Reaches(n, acts, AnyAction, w);
      MutualExclusion(n, acts, t, u);
    }
  }

  // ----------------------------------------------------------------------
  // Fence order
  // ----------------------------------------------------------------------

  // The fence was allocated before round start + TTL.
  predicate InTime(g: Grant) {
    g.at < g.deadline
  }

  // Once a later grant was allocated in time, its nodes never answer to an
  // earlier grant's token again.
  ghost predicate Superseded(s: World) {
    forall i, j :: 0 <= i < j < |s.log| && InTime(s.log[j]) ==>
      forall k :: k in s.log[j].support && k < N(s) ==> !Owns(s.nodes[k], s.now, s.log[i].token)
  }

  lemma NoNewOwnership(s: World, a: Action, t: Token, k: nat)
    requires k < N(s) && t in s.clients
    requires s.clients[t].phase.Claimed? || s.clients[t].phase.Gone?
    requires !Owns(s.nodes[k], s.now, t)
    requires Enabled(s, a) && !a.LateAcquire?
    ensures k < N(Next(s, a)) && !Owns(Next(s, a).nodes[k], Next(s, a).now, t)
  {
  }

  lemma AllocateSupersedes(s: World, t: Token)
    requires Inv(s) && Superseded(s) && Enabled(s, Allocate(t, true))
    ensures Superseded(Next(s, Allocate(t, true)))
  {
    var s' := Next(s, Allocate(t, true));
    var g := s'.log[|s.log|];
    assert PhaseInv(s, t, s.clients[t]);
    if InTime(g) {
      forall i, k | 0 <= i < |s.log| && k in g.support && k < N(s)
        ensures !Owns(s'.nodes[k], s'.now, s.log[i].token)
      {
        assert s.log[i].token != t;
      }
    }
  }

  lemma StepKeepsSuperseded(s: World, a: Action)
    requires Inv(s) && Superseded(s) && !Next(s, a).delayed
    ensures Superseded(Next(s, a))
  {
    var s' := Next(s, a);
    if !Enabled(s, a) {
    } else if a.Allocate? && a.heard {
      AllocateSupersedes(s, a.token);
    } else {
      assert s'.log == s.log && N(s') == N(s);
      forall i, j, k | 0 <= i < j < |s.log| && InTime(s.log[j]) && k in s.log[j].support && k < N(s)
        ensures !Owns(s'.nodes[k], s'.now, s.log[i].token)
      {
        assert GrantInv(s, s.log[i]);
        NoNewOwnership(s, a, s.log[i].token, k);
      }
    }
  }

  lemma FlagsStick(s: World, a: Action)
    ensures s.delayed ==> Next(s, a).delayed
    ensures s.mixed ==> Next(s, a).mixed
  {
  }

  lemma {:induction false} AlwaysSuperseded(n: nat, acts: seq<Action>)
    requires !Exec(Init(n), acts).delayed && !Exec(Init(n), acts).mixed
    ensures Superseded(Exec(Init(n), acts))
  {
    if acts != [] {
      var s, a := Exec(Init(n), acts[..|acts| - 1]), acts[|acts| - 1];
      assert Exec(Init(n), acts) == Next(s, a);
      if s.delayed || s.mixed {
        FlagsStick(s, a);
        assert false;
      }
      AlwaysInv(n, acts[..|acts| - 1]);
      AlwaysSuperseded(n, acts[..|acts| - 1]);
      StepKeepsSuperseded(s, a);
    }
  }

  lemma StepKeepsNumbered(s: World, a: Action)
    requires Numbered(s)
    ensures Numbered(Next(s, a))
  {
  }

  // Whatever the TTLs, a later grant has a larger fence.
  lemma {:induction false} FencesStrictlyIncrease(n: nat, acts: seq<Action>)
    ensures Numbered(Exec(Init(n), acts))
    ensures var log := Exec(Init(n), acts).log;
            forall i, j :: 0 <= i < j < |log| ==> log[i].fence < log[j].fence
  {
    if acts != [] {
      FencesStrictlyIncrease(n, acts[..|acts| - 1]);
      StepKeepsNumbered(Exec(Init(n), acts[..|acts| - 1]), acts[|acts| - 1]);
    }
  }

  // When a fence is allocated in time, every earlier grant's claim is over:
  // released, or its window has closed. So the windows of in-time grants are
  // disjoint and their fences increase in the order of the windows.
  lemma InTimeGrantsFollowClosedClaims(n: nat, acts: seq<Action>, t: Token, u: Token)
    requires !Exec(Init(n), acts).mixed
    requires var s := Exec(Init(n), acts);
             PhaseOf(s, t).Passed? && s.now < PhaseOf(s, t).start + s.clients[t].ttl
    ensures !Open(Exec(Init(n), acts), u)
    ensures var s' := Next(Exec(Init(n), acts), Allocate(t, true));
            && Open(s', t)
            && (u in s'.clients && s'.clients[u].phase.Claimed? && u != t ==>
                  && s'.clients[u].phase.deadline <= s'.now
                  && s'.clients[u].phase.fence < s'.clients[t].phase.fence)
  {
    AlwaysInv(n, acts);
    var s := Exec(Init(n), acts);
    assert PhaseInv(s, t, s.clients[t]);
    if u in s.clients && s.clients[u].phase.Claimed? {
      assert PhaseInv(s, u, s.clients[u]);
      if s.now < s.clients[u].phase.deadline {
        var i := QuorumsMeet(N(s), PhaseOf(s, t).acquired, s.clients[u].phase.support);
        assert false;
      }
    }
  }

  lemma NewestFence(s: World, t: Token, j: nat)
    requires Inv(s) && Superseded(s) && Open(s, t)
    requires j < |s.log| && InTime(s.log[j])
    ensures s.log[j].fence <= s.clients[t].phase.fence
  {
    var c := s.clients[t].phase;
    assert PhaseInv(s, t, s.clients[t]) && ClaimInv(s, t, s.clients[t]);
    var i :| 0 <= i < |s.log| && s.log[i].token == t && s.log[i].fence == c.fence;
    if i < j {
      assert GrantInv(s, s.log[j]);
      var k := QuorumsMeet(N(s), c.support, s.log[j].support);
      assert false;
    }
  }

  // A claim that is open now has the newest fence among all fences allocated in
  // time, in every run in which no acquire command executes late.
  lemma OpenClaimHasNewestFence(n: nat, acts: seq<Action>, t: Token, j: nat)
    requires !Exec(Init(n), acts).delayed && !Exec(Init(n), acts).mixed
    requires Open(Exec(Init(n), acts), t)
    requires j < |Exec(Init(n), acts).log| && InTime(Exec(Init(n), acts).log[j])
    ensures Exec(Init(n), acts).log[j].fence <= Exec(Init(n), acts).clients[t].phase.fence
  {
    AlwaysInv(n, acts);
    AlwaysSuperseded(n, acts);
    NewestFence(Exec(Init(n), acts), t, j);
  }
}
