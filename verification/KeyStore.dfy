/** One store with many lock keys, each with its fence counter, and the two
    facts that let clients share it: an operation disturbs no lock of another
    token, and only an acquire under a token makes a lock of that token. */
module KeyStore {
  import opened Common
  import Mutex

  type Key = string

  datatype Cell = Cell(lock: Option<Lease>, counter: Option<Mutex.Counter>)

  datatype Store = Store(now: nat, cells: map<Key, Cell>)

  function At(s: Store, k: Key): Cell {
    if k in s.cells then s.cells[k] else Cell(None, None)
  }

  function Lock(s: Store, k: Key): Option<Lease> {
    At(s, k).lock
  }

  // The single key and its counter, as the scripts see them.
  function Single(s: Store, k: Key): Mutex.Store {
    Mutex.Store(s.now, At(s, k).lock, At(s, k).counter)
  }

  function Put(s: Store, k: Key, m: Mutex.Store): Store {
    s.(cells := s.cells[k := Cell(m.lock, m.counter)])
  }

  datatype Op =
    | Acquire(key: Key, token: Token, ttl: nat)
    | Extend(key: Key, token: Token, ttl: nat)
    | Release(key: Key, token: Token)
    | Tick(d: nat)

  function Next(s: Store, op: Op): Store {
    match op
    case Acquire(k, t, ttl) => Put(s, k, Mutex.AcquireStep(Single(s, k), t, ttl, ttl * Mutex.FENCE_TTL_MULTIPLIER).0)
    case Extend(k, t, ttl) => Put(s, k, Mutex.ExtendStep(Single(s, k), t, ttl, ttl * Mutex.FENCE_TTL_MULTIPLIER).0)
    case Release(k, t) => Put(s, k, Mutex.ReleaseStep(Single(s, k), t).0)
    case Tick(d) => s.(now := s.now + d)
  }

  // An operation is the script of its kind, with ten lease times for the counter, on its
  // own key, and leaves every other key alone.
  lemma NextIsTheScript(s: Store, op: Op, k: Key)
    ensures op.Tick? ==> Next(s, op) == Store(s.now + op.d, s.cells)
    ensures !op.Tick? ==> Next(s, op).now == s.now && (k != op.key ==> At(Next(s, op), k) == At(s, k))
    ensures !op.Tick? && k == op.key ==>
              Single(Next(s, op), k) ==
              match op
              case Acquire(_, t, ttl) => Mutex.AcquireStep(Single(s, k), t, ttl, 10 * ttl).0
              case Extend(_, t, ttl) => Mutex.ExtendStep(Single(s, k), t, ttl, 10 * ttl).0
              case Release(_, t) => Mutex.ReleaseStep(Single(s, k), t).0
              case Tick(_) => Single(s, k)
  {
  }

  predicate Names(op: Op, k: Key, t: Token) {
    !op.Tick? && op.key == k && op.token == t
  }

  // A live lock, with its counter, stands through every operation under another token.
  lemma OthersLeaveLock(s: Store, op: Op, k: Key)
    requires Live(Lock(s, k), s.now) && !Names(op, k, Lock(s, k).value.token)
    ensures At(Next(s, op), k) == At(s, k)
  {
  }

  // A live lock was there before, or has just been acquired under its token.
  lemma LocksHaveAcquirers(s: Store, op: Op, k: Key, t: Token)
    requires Owns(Lock(Next(s, op), k), Next(s, op).now, t)
    ensures Owns(Lock(s, k), s.now, t) || (op.Acquire? && Names(op, k, t))
  {
  }

  lemma RefusalChangesNothing(s: Store, k: Key, t: Token, ttl: nat)
    requires !AcquireGrants(Lock(s, k), s.now, t)
    ensures Next(s, Acquire(k, t, ttl)) == s
  {
    assert s.cells[k := At(s, k)] == s.cells;
  }

  // The store after some operations.
  function AfterOps(s: Store, ops: seq<Op>): Store {
    if ops == [] then s else Next(AfterOps(s, ops[..|ops| - 1]), ops[|ops| - 1])
  }
}
