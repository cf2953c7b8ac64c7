/** Several multi-lock clients at once, each taking its keys in the one global
    order and giving them back one by one when it meets a held key. Keys are
    numbered by their place in that order; leases do not run out and nobody else
    uses the keys. Then the clients cannot defeat each other for good. */
module MultiLockProgress {

  // keys in order; the first held of them are this client's. A client rolling back
  // gives up the last of them at each step.
  datatype Client = Client(keys: seq<nat>, held: nat, rolling: bool)

  type State = seq<Client>

  predicate WellFormed(c: Client, limit: nat) {
    && c.held <= |c.keys| && (c.rolling ==> c.held > 0)
    && (forall k :: 0 <= k < |c.keys| ==> c.keys[k] < limit)
    && forall j, k :: 0 <= j < k < |c.keys| ==> c.keys[j] < c.keys[k]
  }

  // All keys taken.
  predicate Done(c: Client) {
    !c.rolling && c.held == |c.keys|
  }

  predicate Holds(c: Client, key: nat)
    requires c.held <= |c.keys|
  {
    key in c.keys[..c.held]
  }

  predicate Blocked(s: State, i: nat)
    requires i < |s| && s[i].held < |s[i].keys| && forall j :: 0 <= j < |s| ==> s[j].held <= |s[j].keys|
  {
    exists j :: 0 <= j < |s| && j != i && Holds(s[j], s[i].keys[s[i].held])
  }

  // Client i's next store call: take the next key, or meet a held one and begin
  // to roll back, or give the last key back.
  function Step(s: State, i: nat): State
    requires forall j :: 0 <= j < |s| ==> s[j].held <= |s[j].keys| && (s[j].rolling ==> s[j].held > 0)
  {
    if i >= |s| || Done(s[i]) then s
    else
      var c := s[i];
      if c.rolling then s[i := Client(c.keys, c.held - 1, c.held > 1)]
      else if Blocked(s, i) then s[i := Client(c.keys, c.held, c.held > 0)]
      else s[i := Client(c.keys, c.held + 1, false)]
  }

  // How far a client going forward has come: one above its greatest key.
  function Mark(c: Client): nat
    requires c.held <= |c.keys|
  {
    if c.rolling || c.held == 0 then 0 else c.keys[c.held - 1] + 1
  }

  ghost predicate Formed(s: State, limit: nat) {
    forall i :: 0 <= i < |s| ==> WellFormed(s[i], limit)
  }

  // Someone going forward has come at least as far as m.
  ghost predicate AtLeast(s: State, limit: nat, m: nat)
    requires Formed(s, limit)
  {
    exists j :: 0 <= j < |s| && Mark(s[j]) >= m
  }

  // Every client rolling back has someone going forward beyond all its keys.
  ghost predicate Inv(s: State, limit: nat) {
    && Formed(s, limit)
    && forall i :: 0 <= i < |s| && s[i].rolling ==> AtLeast(s, limit, s[i].keys[s[i].held - 1] + 2)
  }

  // Whenever an attempt fails on a key, another one is going forward and holds
  // that key or a greater one: it has come further.
  lemma FailureHasStronger(s: State, limit: nat, i: nat) returns (j: nat)
    requires Inv(s, limit) && i < |s| && !s[i].rolling && s[i].held < |s[i].keys| && Blocked(s, i)
    ensures j < |s| && j != i && Mark(s[j]) > s[i].keys[s[i].held] && Mark(s[j]) > Mark(s[i])
  {
    var key := s[i].keys[s[i].held];
    var h :| 0 <= h < |s| && h != i && Holds(s[h], key);
    var p :| 0 <= p < s[h].held && s[h].keys[p] == key;
    assert p < s[h].held - 1 ==> s[h].keys[p] < s[h].keys[s[h].held - 1];
    if s[h].rolling {
      var f :| 0 <= f < |s| && Mark(s[f]) >= s[h].keys[s[h].held - 1] + 2;
      j := f;
    } else {
      j := h;
    }
    assert s[i].held > 0 ==> s[i].keys[s[i].held - 1] < key;
  }

  // The furthest mark is never lost.
  lemma StepKeepsLead(s: State, limit: nat, i: nat, m: nat)
    requires Inv(s, limit) && AtLeast(s, limit, m)
    ensures Formed(Step(s, i), limit) && AtLeast(Step(s, i), limit, m)
  {
    var t := Step(s, i);
    var j :| 0 <= j < |s| && Mark(s[j]) >= m;
    if i == j && !Done(s[i]) && !s[i].rolling && Blocked(s, i) {
      var k := FailureHasStronger(s, limit, i);
      assert Mark(t[k]) >= m;
    } else {
      assert Mark(t[j]) >= m;
    }
  }

  lemma RollerStaysCovered(s: State, limit: nat, i: nat, r: nat)
    requires Inv(s, limit) && r < |s| && s[r].rolling && Step(s, i)[r].rolling
    ensures Formed(Step(s, i), limit) && AtLeast(Step(s, i), limit, Step(s, i)[r].keys[Step(s, i)[r].held - 1] + 2)
  {
    var t := Step(s, i);
    var m := s[r].keys[s[r].held - 1] + 2;
    StepKeepsLead(s, limit, i, m);
    assert t[r].keys[t[r].held - 1] + 2 <= m;
    var f :| 0 <= f < |t| && Mark(t[f]) >= m;
  }

  lemma FailerIsCovered(s: State, limit: nat, i: nat)
    requires Inv(s, limit) && i < |s| && !s[i].rolling && Step(s, i)[i].rolling
    ensures Formed(Step(s, i), limit) && AtLeast(Step(s, i), limit, Step(s, i)[i].keys[Step(s, i)[i].held - 1] + 2)
  {
    var t := Step(s, i);
    StepKeepsForm(s, limit, i);
    var k := FailureHasStronger(s, limit, i);
    assert t[k] == s[k] && Mark(t[k]) >= t[i].keys[t[i].held - 1] + 2;
  }

  lemma StepKeepsForm(s: State, limit: nat, i: nat)
    requires Formed(s, limit)
    ensures Formed(Step(s, i), limit)
  {
  }

  lemma StepKeepsInv(s: State, limit: nat, i: nat)
    requires Inv(s, limit)
    ensures Inv(Step(s, i), limit)
  {
    var t := Step(s, i);
    StepKeepsForm(s, limit, i);
    forall r | 0 <= r < |t| && t[r].rolling ensures AtLeast(t, limit, t[r].keys[t[r].held - 1] + 2) {
      if s[r].rolling {
        RollerStaysCovered(s, limit, i, r);
      } else {
        FailerIsCovered(s, limit, i);
      }
    }
  }

  // ----------------------------------------------------------------------
  // Rounds
  // ----------------------------------------------------------------------

  function Run(s: State, limit: nat, schedule: seq<nat>): (t: State)
    requires Inv(s, limit)
    ensures Inv(t, limit) && |t| == |s|
  {
    if schedule == [] then s
    else
      var before := Run(s, limit, schedule[..|schedule| - 1]);
      StepKeepsInv(before, limit, schedule[|schedule| - 1]);
      Step(before, schedule[|schedule| - 1])
  }

  ghost predicate SomeoneDone(s: State) {
    exists j :: 0 <= j < |s| && Done(s[j])
  }

  lemma DoneSticks(s: State, limit: nat, i: nat)
    requires Inv(s, limit) && SomeoneDone(s)
    ensures SomeoneDone(Step(s, i))
  {
    var j :| 0 <= j < |s| && Done(s[j]);
    assert Done(Step(s, i)[j]);
  }

  // Client d leads at m, unless someone has come further.
  ghost predicate Leads(s: State, limit: nat, d: nat, m: nat)
    requires Formed(s, limit)
  {
    d < |s| && !s[d].rolling && Mark(s[d]) == m
  }

  lemma LeaderExists(s: State, limit: nat) returns (d: nat)
    requires Inv(s, limit) && s != []
    ensures d < |s| && Leads(s, limit, d, Mark(s[d])) && !AtLeast(s, limit, Mark(s[d]) + 1)
  {
    d := Furthest(s, limit, |s|);
    if s[d].rolling {
      assert false;
    }
  }

  // No mark exceeds the number of keys.
  lemma MarksAreBounded(s: State, limit: nat)
    requires Formed(s, limit)
    ensures forall m :: m > limit ==> !AtLeast(s, limit, m)
  {
    forall j | 0 <= j < |s| ensures Mark(s[j]) <= limit {
      assert WellFormed(s[j], limit);
    }
  }

  lemma {:induction false} Furthest(s: State, limit: nat, n: nat) returns (d: nat)
    requires Formed(s, limit) && 0 < n <= |s|
    ensures d < n && forall j :: 0 <= j < n ==> Mark(s[j]) <= Mark(s[d])
  {
    d := 0;
    if n > 1 {
      var e := Furthest(s, limit, n - 1);
      d := if Mark(s[n - 1]) > Mark(s[e]) then n - 1 else e;
    }
  }

  // The leader is never turned away: its step takes it further.
  lemma LeaderAdvances(s: State, limit: nat, d: nat, m: nat)
    requires Inv(s, limit) && Leads(s, limit, d, m) && !AtLeast(s, limit, m + 1) && !Done(s[d])
    ensures Formed(Step(s, d), limit) && AtLeast(Step(s, d), limit, m + 1)
  {
    if Blocked(s, d) {
      var k := FailureHasStronger(s, limit, d);
      assert false;
    }
    assert Mark(Step(s, d)[d]) >= m + 1;
  }

  lemma {:induction false} LeadGrows(s: State, limit: nat, schedule: seq<nat>, d: nat, m: nat)
    requires Inv(s, limit) && Leads(s, limit, d, m) && !SomeoneDone(Run(s, limit, schedule))
    ensures AtLeast(Run(s, limit, schedule), limit, m + 1)
            || (d !in schedule && Leads(Run(s, limit, schedule), limit, d, m))
  {
    if schedule != [] {
      var past, i := schedule[..|schedule| - 1], schedule[|schedule| - 1];
      var t := Run(s, limit, past);
      if SomeoneDone(t) {
        DoneSticks(t, limit, i);
      }
      LeadGrows(s, limit, past, d, m);
      if AtLeast(t, limit, m + 1) {
        StepKeepsLead(t, limit, i, m + 1);
      } else if i == d {
        LeaderAdvances(t, limit, d, m);
      }
    }
  }

  // Every client makes at least one call in the round.
  predicate Full(schedule: seq<nat>, n: nat) {
    forall i: nat :: i < n ==> i in schedule
  }

  // A full round without a success takes someone further than anyone was.
  lemma RoundRaisesLead(s: State, limit: nat, schedule: seq<nat>, m: nat)
    requires Inv(s, limit) && AtLeast(s, limit, m) && Full(schedule, |s|)
    requires !SomeoneDone(Run(s, limit, schedule))
    ensures AtLeast(Run(s, limit, schedule), limit, m + 1)
  {
    var j :| 0 <= j < |s| && Mark(s[j]) >= m;
    var d := LeaderExists(s, limit);
    assert Mark(s[d]) >= m;
    LeadGrows(s, limit, schedule, d, Mark(s[d]));
    var t := Run(s, limit, schedule);
    var k :| 0 <= k < |t| && Mark(t[k]) >= Mark(s[d]) + 1;
  }

  function RunRounds(s: State, limit: nat, rounds: seq<seq<nat>>): (t: State)
    requires Inv(s, limit)
    ensures Inv(t, limit) && |t| == |s|
  {
    if rounds == [] then s
    else Run(RunRounds(s, limit, rounds[..|rounds| - 1]), limit, rounds[|rounds| - 1])
  }

  lemma {:induction false} RunKeepsDone(s: State, limit: nat, schedule: seq<nat>)
    requires Inv(s, limit) && SomeoneDone(s)
    ensures SomeoneDone(Run(s, limit, schedule))
  {
    if schedule != [] {
      RunKeepsDone(s, limit, schedule[..|schedule| - 1]);
      DoneSticks(Run(s, limit, schedule[..|schedule| - 1]), limit, schedule[|schedule| - 1]);
    }
  }

  lemma {:induction false} RoundsRaiseLead(s: State, limit: nat, rounds: seq<seq<nat>>)
    requires Inv(s, limit) && s != [] && forall k :: 0 <= k < |rounds| ==> Full(rounds[k], |s|)
    requires !SomeoneDone(RunRounds(s, limit, rounds))
    ensures AtLeast(RunRounds(s, limit, rounds), limit, |rounds|)
  {
    if rounds == [] {
      assert Mark(s[0]) >= 0;
    } else {
      var n := |rounds| - 1;
      var t := RunRounds(s, limit, rounds[..n]);
      if SomeoneDone(t) {
        RunKeepsDone(t, limit, rounds[n]);
      }
      RoundsRaiseLead(s, limit, rounds[..n]);
      RoundRaisesLead(t, limit, rounds[n], n);
    }
  }

  lemma RoundsBringSuccess(s: State, limit: nat, rounds: seq<seq<nat>>)
    requires Inv(s, limit) && s != [] && |rounds| > limit
    requires forall k :: 0 <= k < |rounds| ==> Full(rounds[k], |s|)
    ensures SomeoneDone(RunRounds(s, limit, rounds))
  {
    MarksAreBounded(RunRounds(s, limit, rounds), limit);
    if !SomeoneDone(RunRounds(s, limit, rounds)) {
      RoundsRaiseLead(s, limit, rounds);
      assert false;
    }
  }

  // Clients that hold nothing yet.
  ghost predicate Idle(s: State, limit: nat) {
    Formed(s, limit) && forall i :: 0 <= i < |s| ==> s[i].held == 0
  }

  lemma IdleHasInv(s: State, limit: nat)
    requires Idle(s, limit)
    ensures Inv(s, limit)
  {
  }

  // From idle clients, after any schedule, under any further one that lets every
  // client make a call in each round, some client has all its keys after one round
  // more than there are keys.
  lemma SomeoneSucceeds(idle: State, limit: nat, past: seq<nat>, rounds: seq<seq<nat>>)
    requires Idle(idle, limit) && idle != [] && |rounds| > limit
    requires forall k :: 0 <= k < |rounds| ==> Full(rounds[k], |idle|)
    ensures Inv(idle, limit) && SomeoneDone(RunRounds(Run(idle, limit, past), limit, rounds))
  {
    IdleHasInv(idle, limit);
    RoundsBringSuccess(Run(idle, limit, past), limit, rounds);
  }

  // Two clients that take two keys in opposite orders.
  function Opposed(held: nat, rolling: bool, held': nat, rolling': bool): (s: State)
    requires held <= 2 && held' <= 2 && (rolling ==> held > 0) && (rolling' ==> held' > 0)
    ensures forall j :: 0 <= j < |s| ==> s[j].held <= |s[j].keys| && (s[j].rolling ==> s[j].held > 0)
  {
    [Client([0, 1], held, rolling), Client([1, 0], held', rolling')]
  }

  // Without the common order it fails: they can turn each other away for ever.
  lemma OppositeOrdersCycle()
    ensures Step(Opposed(0, false, 0, false), 0) == Opposed(1, false, 0, false)
    ensures Step(Opposed(1, false, 0, false), 1) == Opposed(1, false, 1, false)
    ensures Step(Opposed(1, false, 1, false), 0) == Opposed(1, true, 1, false)
    ensures Step(Opposed(1, true, 1, false), 1) == Opposed(1, true, 1, true)
    ensures Step(Opposed(1, true, 1, true), 0) == Opposed(0, false, 1, true)
    ensures Step(Opposed(0, false, 1, true), 1) == Opposed(0, false, 0, false)
  {
    assert !Blocked(Opposed(0, false, 0, false), 0);
    assert !Blocked(Opposed(1, false, 0, false), 1);
    assert Holds(Opposed(1, false, 1, false)[1], 1) && Blocked(Opposed(1, false, 1, false), 0);
    assert Holds(Opposed(1, true, 1, false)[0], 0) && Blocked(Opposed(1, true, 1, false), 1);
  }
}
