/** Vocabulary shared by every model: optional values, results, leases on one
    Redis key, and the few facts about finite sets the proofs lean on. */
module Common {
  type Token = nat

  datatype Option<+T> = None | Some(value: T)

  datatype Result<+T, +E> = Ok(value: T) | Err(error: E)

  // A string key holding an owner token with an absolute expiry.
  datatype Lease = Lease(token: Token, expiry: nat)

  predicate Live(l: Option<Lease>, now: nat) {
    l.Some? && now < l.value.expiry
  }

  predicate Owns(l: Option<Lease>, now: nat, t: Token) {
    Live(l, now) && l.value.token == t
  }

  // The lock-key half of acquire.lua: SET NX PX, else refresh if already ours.
  predicate AcquireGrants(l: Option<Lease>, now: nat, t: Token) {
    !Live(l, now) || l.value.token == t
  }

  function LockAfterAcquire(l: Option<Lease>, now: nat, t: Token, ttl: nat): Option<Lease> {
    if AcquireGrants(l, now, t) then Some(Lease(t, now + ttl)) else l
  }

  // The lock-key half of extend.lua.
  function LockAfterExtend(l: Option<Lease>, now: nat, t: Token, ttl: nat): Option<Lease> {
    if Owns(l, now, t) then Some(Lease(t, now + ttl)) else l
  }

  // release.lua.
  function LockAfterRelease(l: Option<Lease>, now: nat, t: Token): Option<Lease> {
    if Owns(l, now, t) then None else l
  }

  // The node indices 0..n-1.
  function Range(n: nat): (r: set<nat>)
    ensures forall i: nat :: i in r <==> i < n
    ensures |r| == n
  {
    if n == 0 then {} else Range(n - 1) + {n - 1}
  }

  lemma SubsetSize<T>(a: set<T>, b: set<T>)
    requires a <= b
    ensures |a| <= |b|
  {
    assert b == a + (b - a);
  }

  // Two majorities of the same ring share a member.
  lemma MajoritiesMeet(a: set<nat>, b: set<nat>, n: nat) returns (i: nat)
    requires a <= Range(n) && b <= Range(n)
    requires |a| + |b| > n
    ensures i in a && i in b
  {
    if a * b == {} {
      assert |a + b| == |a| + |b|;
      SubsetSize(a + b, Range(n));
      assert false;
    }
    i :| i in a * b;
  }
}
