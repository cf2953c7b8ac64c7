/** The quota registry: which principal holds which key, and how many keys each
    principal holds. The two maps sit behind two locks, so a release is two
    steps, and a registration can have other releases' second steps land between
    its check and its count. */
module QuotaRegistry {
  import opened Common

  type Key = string
  type Principal = string

  // adding: the registration that has inserted its key and still holds the
  // holders lock. freeing: owners of removed keys, not yet counted down.
  datatype State = State(
    holders: map<Key, Principal>,
    counts: map<Principal, nat>,
    adding: Option<Principal>,
    freeing: multiset<Principal>)

  const Empty: State := State(map[], map[], None, multiset{})

  function CountOf(counts: map<Principal, nat>, p: Principal): nat {
    if p in counts then counts[p] else 0
  }

  function SaturatingPred(n: nat): nat {
    if n == 0 then 0 else n - 1
  }

  // ----------------------------------------------------------------------
  // Lock-protected steps
  // ----------------------------------------------------------------------

  datatype Action =
    | Register(key: Key, principal: Principal, maxKeys: nat)
    | CountUp
    | Take(key: Key)
    | CountDown(principal: Principal)

  // A registration under way keeps everyone else off the holders map.
  predicate Enabled(s: State, a: Action) {
    match a
    case Register(_, _, _) => s.adding.None?
    case CountUp => s.adding.Some?
    case Take(_) => s.adding.None?
    case CountDown(p) => p in s.freeing
  }

  predicate Admits(s: State, key: Key, p: Principal, maxKeys: nat) {
    key in s.holders || maxKeys == 0 || CountOf(s.counts, p) < maxKeys
  }

  function Next(s: State, a: Action): State {
    if !Enabled(s, a) then s else
    match a
    case Register(key, p, maxKeys) =>
      if key in s.holders || !Admits(s, key, p, maxKeys) then s
      else s.(holders := s.holders[key := p], adding := Some(p))
    case CountUp =>
      s.(counts := s.counts[s.adding.value := CountOf(s.counts, s.adding.value) + 1], adding := None)
    case Take(key) =>
      if key in s.holders then s.(holders := s.holders - {key}, freeing := s.freeing + multiset{s.holders[key]})
      else s
    case CountDown(p) =>
      s.(counts := if p in s.counts then s.counts[p := SaturatingPred(s.counts[p])] else s.counts,
         freeing := s.freeing - multiset{p})
  }

  function Exec(actions: seq<Action>): State {
    if actions == [] then Empty else Next(Exec(actions[..|actions| - 1]), actions[|actions| - 1])
  }

  // ----------------------------------------------------------------------
  // Conservation
  // ----------------------------------------------------------------------

  ghost function KeysOf(holders: map<Key, Principal>, p: Principal): set<Key> {
    set k | k in holders && holders[k] == p
  }

  // Keys owned by p, and p's releases still to be counted down.
  ghost function Charged(s: State, p: Principal): nat {
    |KeysOf(s.holders, p)| + s.freeing[p]
  }

  function Uncounted(s: State, p: Principal): nat {
    if s.adding == Some(p) then 1 else 0
  }

  ghost predicate Balanced(s: State) {
    && (forall p :: CountOf(s.counts, p) + Uncounted(s, p) == Charged(s, p))
    && (s.adding.Some? ==> KeysOf(s.holders, s.adding.value) != {})
  }

  lemma InsertCharges(holders: map<Key, Principal>, key: Key, p: Principal, q: Principal)
    requires key !in holders
    ensures |KeysOf(holders[key := p], q)| == |KeysOf(holders, q)| + if p == q then 1 else 0
    ensures key in KeysOf(holders[key := p], p)
  {
    assert KeysOf(holders[key := p], q) == KeysOf(holders, q) + if p == q then {key} else {};
  }

  lemma RemovalFrees(holders: map<Key, Principal>, key: Key, q: Principal)
    requires key in holders
    ensures |KeysOf(holders, q)| == |KeysOf(holders - {key}, q)| + if holders[key] == q then 1 else 0
  {
    assert KeysOf(holders, q) == KeysOf(holders - {key}, q) + if holders[key] == q then {key} else {};
  }

  // Whoever still has to count down finds a positive count: the lookup cannot
  // miss and the subtraction cannot saturate.
  lemma CountDownFindsItsKey(s: State, p: Principal)
    requires Balanced(s) && p in s.freeing
    ensures p in s.counts && s.counts[p] >= s.freeing[p]
  {
    assert CountOf(s.counts, p) + Uncounted(s, p) == Charged(s, p);
  }

  lemma StepKeepsBalance(s: State, a: Action)
    requires Balanced(s)
    ensures Balanced(Next(s, a))
    ensures forall p :: Charged(Next(s, a), p) <= Charged(s, p) ||
                        (a.Register? && a.principal == p && Charged(Next(s, a), p) == Charged(s, p) + 1
                         && (a.maxKeys > 0 ==> Charged(Next(s, a), p) <= a.maxKeys))
  {
    var t := Next(s, a);
    if a.CountDown? && Enabled(s, a) {
      CountDownFindsItsKey(s, a.principal);
    }
    forall p
      ensures CountOf(t.counts, p) + Uncounted(t, p) == Charged(t, p)
      ensures Charged(t, p) <= Charged(s, p) ||
              (a.Register? && a.principal == p && Charged(t, p) == Charged(s, p) + 1
               && (a.maxKeys > 0 ==> Charged(t, p) <= a.maxKeys))
    {
      assert CountOf(s.counts, p) + Uncounted(s, p) == Charged(s, p);
      if a.Register? && a.key !in s.holders {
        InsertCharges(s.holders, a.key, a.principal, p);
      } else if a.Take? && a.key in s.holders {
        RemovalFrees(s.holders, a.key, p);
      }
    }
    if a.Register? && t != s {
      InsertCharges(s.holders, a.key, a.principal, a.principal);
    }
  }

  // At every point of every run, counts[p] is the keys p owns plus p's releases
  // in flight, less the one registration of p not counted yet.
  lemma {:induction false} AlwaysBalanced(actions: seq<Action>)
    ensures Balanced(Exec(actions))
  {
    if actions != [] {
      AlwaysBalanced(actions[..|actions| - 1]);
      StepKeepsBalance(Exec(actions[..|actions| - 1]), actions[|actions| - 1]);
    }
  }

  // With nothing in flight the counts are the real ones.
  lemma QuietCountsAreExact(actions: seq<Action>, p: Principal)
    requires Exec(actions).adding.None? && Exec(actions).freeing == multiset{}
    ensures CountOf(Exec(actions).counts, p) == |KeysOf(Exec(actions).holders, p)|
  {
    AlwaysBalanced(actions);
    assert CountOf(Exec(actions).counts, p) + Uncounted(Exec(actions), p) == Charged(Exec(actions), p);
  }

  // ----------------------------------------------------------------------
  // The quota
  // ----------------------------------------------------------------------

  // Every registration of p names a ceiling, and none above m.
  predicate Capped(a: Action, p: Principal, m: nat) {
    a.Register? && a.principal == p ==> 0 < a.maxKeys <= m
  }

  // A principal never owns more keys than the largest ceiling it was given,
  // not even counting releases in flight.
  lemma {:induction false} QuotaHolds(actions: seq<Action>, p: Principal, m: nat)
    requires forall i :: 0 <= i < |actions| ==> Capped(actions[i], p, m)
    ensures |KeysOf(Exec(actions).holders, p)| <= Charged(Exec(actions), p) <= m
  {
    if actions != [] {
      var n := |actions| - 1;
      QuotaHolds(actions[..n], p, m);
      AlwaysBalanced(actions[..n]);
      StepKeepsBalance(Exec(actions[..n]), actions[n]);
    } else {
      assert KeysOf(Empty.holders, p) == {};
    }
  }

  // A refusal means exactly that the key is new and the principal is charged
  // with at least its ceiling.
  lemma RefusalIsExact(actions: seq<Action>, key: Key, p: Principal, maxKeys: nat)
    requires Exec(actions).adding.None?
    ensures !Admits(Exec(actions), key, p, maxKeys) <==>
            key !in Exec(actions).holders && 0 < maxKeys <= Charged(Exec(actions), p)
  {
    AlwaysBalanced(actions);
    assert CountOf(Exec(actions).counts, p) + Uncounted(Exec(actions), p) == Charged(Exec(actions), p);
  }

  // ----------------------------------------------------------------------
  // The registry
  // ----------------------------------------------------------------------

  // Other threads' step: not this thread's own count-up, nor its count-downs.
  predicate ByOthers(s: State, a: Action, holding: bool, mine: multiset<Principal>) {
    && Enabled(s, a) && !(holding && a.CountUp?)
    && !(a.CountDown? && s.freeing[a.principal] == mine[a.principal])
  }

  function AfterOthers(s: State, actions: seq<Action>, holding: bool, mine: multiset<Principal>): State {
    if actions == [] then s
    else
      var before, a := AfterOthers(s, actions[..|actions| - 1], holding, mine), actions[|actions| - 1];
      if ByOthers(before, a, holding, mine) then Next(before, a) else before
  }

  // adding and freeing stand for the threads now inside a call.
  class HeldRegistry {
    var holders: map<Key, Principal>
    var counts: map<Principal, nat>
    var adding: Option<Principal>
    var freeing: multiset<Principal>

    constructor ()
      ensures View() == Empty && Balanced(View())
    {
      holders, counts, adding, freeing := map[], map[], None, multiset{};
      new;
      AlwaysBalanced([]);
    }

    function View(): State
      reads this
    {
      State(holders, counts, adding, freeing)
    }

    // try_acquire as far as the insert, under the holders lock.
    method CheckAndInsert(key: Key, principal: Principal, maxKeys: nat) returns (ok: bool)
      requires adding.None?
      modifies this`holders, this`adding
      ensures View() == Next(old(View()), Register(key, principal, maxKeys))
      ensures ok == Admits(old(View()), key, principal, maxKeys)
    {
      if key in holders {
        return true;
      }
      if maxKeys > 0 {
        var cur := CountOf(counts, principal);
        if cur >= maxKeys {
          return false;
        }
      }
      holders := holders[key := principal];
      adding := Some(principal);
      ok := true;
    }

    // try_acquire from the insert on; the holders lock is given up at the end.
    method CountUpOwner(principal: Principal)
      requires adding == Some(principal)
      modifies this`counts, this`adding
      ensures View() == Next(old(View()), CountUp)
    {
      counts := counts[principal := CountOf(counts, principal) + 1];
      adding := None;
    }

    // The first half of release, under the holders lock.
    method TakeKey(key: Key) returns (owner: Option<Principal>)
      requires adding.None?
      modifies this`holders, this`freeing
      ensures View() == Next(old(View()), Take(key))
      ensures owner == if key in old(holders) then Some(old(holders)[key]) else None
    {
      if key !in holders {
        return None;
      }
      owner := Some(holders[key]);
      freeing := freeing + multiset{holders[key]};
      holders := holders - {key};
    }

    // The second half, under the counts lock; a missing entry loses the answer.
    method CountDownOwner(owner: Principal) returns (r: Option<Principal>)
      requires owner in freeing
      modifies this`counts, this`freeing
      ensures View() == Next(old(View()), CountDown(owner))
      ensures r == if owner in old(counts) then Some(owner) else None
    {
      freeing := freeing - multiset{owner};
      if owner !in counts {
        return None;
      }
      counts := counts[owner := SaturatingPred(counts[owner])];
      r := Some(owner);
    }

    method Perform(a: Action)
      requires Enabled(View(), a)
      modifies this
      ensures View() == Next(old(View()), a)
    {
      match a {
        case Register(key, q, maxKeys) => var _ := CheckAndInsert(key, q, maxKeys);
        case CountUp => CountUpOwner(adding.value);
        case Take(key) => var _ := TakeKey(key);
        case CountDown(q) => var _ := CountDownOwner(q);
      }
    }

    method OneOther(a: Action, holding: bool, mine: multiset<Principal>, ghost p: Principal, ghost m: nat)
      requires Balanced(View()) && Charged(View(), p) <= m && Capped(a, p, m)
      requires (holding ==> adding.Some?) && mine <= freeing
      modifies this
      ensures Balanced(View()) && Charged(View(), p) <= m && mine <= freeing
      ensures View() == if ByOthers(old(View()), a, holding, mine) then Next(old(View()), a) else old(View())
      ensures holding ==> holders == old(holders) && adding == old(adding)
    {
      if ByOthers(View(), a, holding, mine) {
        StepKeepsBalance(View(), a);
        Perform(a);
      }
    }

    // Other threads' steps. They cannot finish this thread's own registration
    // (holding) or release (mine), and are blocked where a lock is taken.
    method Others(actions: seq<Action>, holding: bool, mine: multiset<Principal>, ghost p: Principal, ghost m: nat)
      requires Balanced(View()) && Charged(View(), p) <= m
      requires holding == adding.Some? && mine <= freeing
      requires forall i :: 0 <= i < |actions| ==> Capped(actions[i], p, m)
      modifies this
      ensures Balanced(View()) && Charged(View(), p) <= m
      ensures mine <= freeing && View() == AfterOthers(old(View()), actions, holding, mine)
      ensures holding ==> holders == old(holders) && adding == old(adding)
    {
      for k := 0 to |actions|
        invariant Balanced(View()) && Charged(View(), p) <= m && mine <= freeing
        invariant holding ==> holders == old(holders) && adding == old(adding)
        invariant View() == AfterOthers(old(View()), actions[..k], holding, mine)
      {
        assert actions[..k + 1][..k] == actions[..k];
        OneOther(actions[k], holding, mine, p, m);
      }
      assert actions[..|actions|] == actions;
    }

    // try_acquire, with other releases counting down between check and count.
    // Whatever they do, the ceilings given to p hold.
    method TryAcquire(key: Key, principal: Principal, maxKeys: nat, between: seq<Action>, ghost p: Principal, ghost m: nat)
      returns (ok: bool)
      requires adding.None? && Balanced(View()) && Charged(View(), p) <= m
      requires Capped(Register(key, principal, maxKeys), p, m)
      requires forall i :: 0 <= i < |between| ==> Capped(between[i], p, m)
      modifies this
      ensures Balanced(View()) && Charged(View(), p) <= m
      ensures adding.None?
      ensures ok <==> key in old(holders) || maxKeys == 0 || old(Charged(View(), principal)) < maxKeys
      ensures holders == if ok && key !in old(holders) then old(holders)[key := principal] else old(holders)
    {
      ghost var s := View();
      assert CountOf(s.counts, principal) + Uncounted(s, principal) == Charged(s, principal);
      StepKeepsBalance(s, Register(key, principal, maxKeys));
      ok := CheckAndInsert(key, principal, maxKeys);
      if adding.Some? {
        Others(between, true, multiset{}, p, m);
        StepKeepsBalance(View(), CountUp);
        CountUpOwner(principal);
      }
    }

    // release, with other threads acting between its two halves: the owner it
    // removed is always the answer.
    method Release(key: Key, between: seq<Action>, ghost p: Principal, ghost m: nat) returns (r: Option<Principal>)
      requires adding.None? && Balanced(View()) && Charged(View(), p) <= m
      requires forall i :: 0 <= i < |between| ==> Capped(between[i], p, m)
      modifies this
      ensures Balanced(View()) && Charged(View(), p) <= m
      ensures r == if key in old(holders) then Some(old(holders)[key]) else None
      ensures between == [] || r.None? ==> holders == old(holders) - {key} && freeing == old(freeing)
      ensures r.Some? ==>
                View() == Next(AfterOthers(Next(old(View()), Take(key)), between, false, multiset{r.value}), CountDown(r.value))
    {
      StepKeepsBalance(View(), Take(key));
      var owner := TakeKey(key);
      if owner.None? {
        return None;
      }
      Others(between, false, multiset{owner.value}, p, m);
      CountDownFindsItsKey(View(), owner.value);
      StepKeepsBalance(View(), CountDown(owner.value));
      r := CountDownOwner(owner.value);
    }
  }
}
