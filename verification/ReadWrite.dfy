/** The read-write lock: one Redis hash with a mode, a reader count, one field
    per registered reader and a writer's owner field. */
module ReadWrite {
  import opened Common

  datatype Mode = R | W

  // `readers` is the counter field, `slots` the tokens with an `r:` field.
  datatype Hash = Hash(mode: Mode, readers: int, slots: set<Token>, owner: Option<Token>)

  datatype Key = Key(hash: Hash, expiry: nat)

  datatype Store = Store(now: nat, key: Option<Key>, counter: nat)

  predicate Exists(s: Store) {
    s.key.Some? && s.now < s.key.value.expiry
  }

  function HashOf(s: Store): Hash
    requires Exists(s)
  {
    s.key.value.hash
  }

  function ReadAcquireStep(s: Store, t: Token, ttl: nat): (Store, nat, nat) {
    if !Exists(s) then
      (Store(s.now, Some(Key(Hash(R, 1, {t}, None), s.now + ttl)), s.counter + 1), 1, s.counter + 1)
    else if HashOf(s).mode.R? && t !in HashOf(s).slots then
      var h := HashOf(s);
      (Store(s.now, Some(Key(h.(readers := h.readers + 1, slots := h.slots + {t}), s.now + ttl)), s.counter + 1),
       1, s.counter + 1)
    else (s, 0, 0)
  }

  // The remaining readers, or -1 when the token held no slot.
  function ReadReleaseStep(s: Store, t: Token, ttl: nat): (Store, int) {
    if !Exists(s) || !HashOf(s).mode.R? || t !in HashOf(s).slots then (s, -1)
    else
      var h := HashOf(s);
      if h.readers - 1 <= 0 then (s.(key := None), 0)
      else
        (s.(key := Some(Key(h.(readers := h.readers - 1, slots := h.slots - {t}), s.now + ttl))), h.readers - 1)
  }

  function WriteAcquireStep(s: Store, t: Token, ttl: nat): (Store, nat, nat) {
    if !Exists(s) then
      (Store(s.now, Some(Key(Hash(W, 0, {}, Some(t)), s.now + ttl)), s.counter + 1), 1, s.counter + 1)
    else if HashOf(s).mode.W? && HashOf(s).owner == Some(t) then
      (Store(s.now, Some(Key(HashOf(s), s.now + ttl)), s.counter + 1), 2, s.counter + 1)
    else (s, 0, 0)
  }

  function WriteReleaseStep(s: Store, t: Token): (Store, int) {
    if Exists(s) && HashOf(s).mode.W? && HashOf(s).owner == Some(t) then (s.(key := None), 1)
    else (s, -1)
  }

  // In read mode any token may refresh the lease.
  function ExtendStep(s: Store, t: Token, ttl: nat): (Store, int) {
    if Exists(s) && (HashOf(s).mode.R? || HashOf(s).owner == Some(t)) then
      (s.(key := Some(Key(HashOf(s), s.now + ttl))), 1)
    else (s, -1)
  }

  // The structure h under a fresh lease, with the next fence.
  ghost predicate GrantedAs(s: Store, v: Store, h: Hash, ttl: nat, fence: nat) {
    fence == s.counter + 1 && v == Store(s.now, Some(Key(h, s.now + ttl)), fence)
  }

  class RwStore {
    var now: nat
    var key: Option<Key>
    var counter: nat

    constructor ()
      ensures View() == Store(0, None, 0)
    {
      now, key, counter := 0, None, 0;
    }

    function View(): Store
      reads this
    {
      Store(now, key, counter)
    }

    // rw_read_acquire.lua
    method ReadAcquire(t: Token, ttl: nat) returns (status: nat, fence: nat)
      modifies this
      ensures (View(), status, fence) == ReadAcquireStep(old(View()), t, ttl)
      ensures var held := old(key).Some? && old(now) < old(key).value.expiry;
              if !held then GrantedAs(old(View()), View(), Hash(R, 1, {t}, None), ttl, fence) && status == 1
              else
                var h := old(key).value.hash;
                if h.mode == R && t !in h.slots then
                  GrantedAs(old(View()), View(), h.(readers := h.readers + 1, slots := h.slots + {t}), ttl, fence) && status == 1
                else View() == old(View()) && status == 0 && fence == 0
    {
      if !Exists(View()) {
        key := Some(Key(Hash(R, 1, {t}, None), now + ttl));
        counter := counter + 1;
        return 1, counter;
      }
      var h := key.value.hash;
      if h.mode.R? && t !in h.slots {
        h := h.(readers := h.readers + 1);
        h := h.(slots := h.slots + {t});
        key := Some(Key(h, now + ttl));
        counter := counter + 1;
        return 1, counter;
      }
      return 0, 0;
    }

    // rw_read_release.lua
    method ReadRelease(t: Token, ttl: nat) returns (remaining: int)
      modifies this
      ensures (View(), remaining) == ReadReleaseStep(old(View()), t, ttl)
      ensures var mine := old(key).Some? && old(now) < old(key).value.expiry
                          && old(key).value.hash.mode == R && t in old(key).value.hash.slots;
              if !mine then View() == old(View()) && remaining == -1
              else
                var h := old(key).value.hash;
                && remaining == (if h.readers > 1 then h.readers - 1 else 0)
                && now == old(now) && counter == old(counter)
                && key == if h.readers > 1 then
                            Some(Key(h.(readers := h.readers - 1, slots := h.slots - {t}), now + ttl))
                          else None
    {
      if !Exists(View()) {
        return -1;
      }
      var h := key.value.hash;
      if !h.mode.R? {
        return -1;
      }
      if t !in h.slots {
        return -1;
      }
      h := h.(slots := h.slots - {t});
      h := h.(readers := h.readers - 1);
      if h.readers <= 0 {
        key := None;
        return 0;
      }
      key := Some(Key(h, now + ttl));
      remaining := h.readers;
    }

    // rw_write_acquire.lua
    method WriteAcquire(t: Token, ttl: nat) returns (status: nat, fence: nat)
      modifies this
      ensures (View(), status, fence) == WriteAcquireStep(old(View()), t, ttl)
      ensures var held := old(key).Some? && old(now) < old(key).value.expiry;
              if !held then GrantedAs(old(View()), View(), Hash(W, 0, {}, Some(t)), ttl, fence) && status == 1
              else
                var h := old(key).value.hash;
                if h.mode == W && h.owner == Some(t) then GrantedAs(old(View()), View(), h, ttl, fence) && status == 2
                else View() == old(View()) && status == 0 && fence == 0
    {
      if !Exists(View()) {
        key := Some(Key(Hash(W, 0, {}, Some(t)), now + ttl));
        counter := counter + 1;
        return 1, counter;
      }
      if key.value.hash.mode.W? && key.value.hash.owner == Some(t) {
        key := Some(Key(key.value.hash, now + ttl));
        counter := counter + 1;
        return 2, counter;
      }
      return 0, 0;
    }

    // rw_extend.lua
    method Extend(t: Token, ttl: nat) returns (ok: int)
      modifies this
      ensures (View(), ok) == ExtendStep(old(View()), t, ttl)
      ensures var may := old(key).Some? && old(now) < old(key).value.expiry
                         && (old(key).value.hash.mode == R || old(key).value.hash.owner == Some(t));
              && ok == (if may then 1 else -1)
              && View() == if may then Store(old(now), Some(Key(old(key).value.hash, old(now) + ttl)), old(counter))
                           else old(View())
    {
      if !Exists(View()) {
        return -1;
      }
      var h := key.value.hash;
      if h.mode.R? || (h.mode.W? && h.owner == Some(t)) {
        key := Some(Key(h, now + ttl));
        return 1;
      }
      ok := -1;
    }

    // rw_write_release.lua
    method WriteRelease(t: Token) returns (ok: int)
      modifies this
      ensures (View(), ok) == WriteReleaseStep(old(View()), t)
      ensures var mine := old(key).Some? && old(now) < old(key).value.expiry
                          && old(key).value.hash.mode == W && old(key).value.hash.owner == Some(t);
              && ok == (if mine then 1 else -1)
              && View() == if mine then Store(old(now), None, old(counter)) else old(View())
    {
      if !Exists(View()) {
        return -1;
      }
      if key.value.hash.mode.W? && key.value.hash.owner == Some(t) {
        key := None;
        return 1;
      }
      ok := -1;
    }
  }

  // ----------------------------------------------------------------------
  // The abstract lock
  // ----------------------------------------------------------------------

  datatype Lock = Free | Readers(who: set<Token>) | Writer(token: Token)

  datatype Op =
    | ReadAcquire(token: Token, ttl: nat)
    | ReadRelease(token: Token, ttl: nat)
    | WriteAcquire(token: Token, ttl: nat)
    | WriteRelease(token: Token)
    | Extend(token: Token, ttl: nat)
    | Tick(d: nat)

  function Step(s: Store, op: Op): Store {
    match op
    case ReadAcquire(t, ttl) => ReadAcquireStep(s, t, ttl).0
    case ReadRelease(t, ttl) => ReadReleaseStep(s, t, ttl).0
    case WriteAcquire(t, ttl) => WriteAcquireStep(s, t, ttl).0
    case WriteRelease(t) => WriteReleaseStep(s, t).0
    case Extend(t, ttl) => ExtendStep(s, t, ttl).0
    case Tick(d) => s.(now := s.now + d)
  }

  // The script's answer, fences aside.
  function Answer(s: Store, op: Op): int {
    match op
    case ReadAcquire(t, ttl) => ReadAcquireStep(s, t, ttl).1
    case ReadRelease(t, ttl) => ReadReleaseStep(s, t, ttl).1
    case WriteAcquire(t, ttl) => WriteAcquireStep(s, t, ttl).1
    case WriteRelease(t) => WriteReleaseStep(s, t).1
    case Extend(t, ttl) => ExtendStep(s, t, ttl).1
    case Tick(_) => 0
  }

  // What a set of readers or one writer would do, and answer.
  function LockStep(l: Lock, op: Op): (Lock, int) {
    match op
    case ReadAcquire(t, _) =>
      (match l
       case Free => (Readers({t}), 1)
       case Readers(who) => if t in who then (l, 0) else (Readers(who + {t}), 1)
       case Writer(_) => (l, 0))
    case ReadRelease(t, _) =>
      if l.Readers? && t in l.who then
        (if l.who == {t} then Free else Readers(l.who - {t}), |l.who| - 1)
      else (l, -1)
    case WriteAcquire(t, _) =>
      (match l
       case Free => (Writer(t), 1)
       case Readers(_) => (l, 0)
       case Writer(u) => (l, if u == t then 2 else 0))
    case WriteRelease(t) => if l == Writer(t) then (Free, 1) else (l, -1)
    case Extend(t, _) => (l, if l.Readers? || l == Writer(t) then 1 else -1)
    case Tick(_) => (l, 0)
  }

  function Abstract(s: Store): Lock {
    if !Exists(s) then Free
    else if HashOf(s).mode.R? then Readers(HashOf(s).slots)
    else if HashOf(s).owner.Some? then Writer(HashOf(s).owner.value)
    else Free
  }

  // The redundant fields agree.
  ghost predicate Inv(s: Store) {
    Exists(s) ==>
      var h := HashOf(s);
      match h.mode
      case R => h.readers == |h.slots| >= 1 && h.owner.None?
      case W => h.owner.Some? && h.slots == {}
  }

  // Does the operation leave the structure without a lease?
  predicate Lapses(s: Store, op: Op) {
    !Exists(Step(s, op)) && LockStep(Abstract(s), op).0 != Free
  }

  // Each script is one step of the abstract lock with the same answer, except
  // that the lease may run out under it.
  lemma StepRefines(s: Store, op: Op)
    requires Inv(s)
    ensures Inv(Step(s, op))
    ensures Answer(s, op) == LockStep(Abstract(s), op).1
    ensures Abstract(Step(s, op)) == if Lapses(s, op) then Free else LockStep(Abstract(s), op).0
  {
    if op.ReadRelease? && Exists(s) {
      SlotRemoval(HashOf(s).slots, op.token);
    }
  }

  lemma SlotRemoval(slots: set<Token>, t: Token)
    ensures t in slots ==> |slots - {t}| == |slots| - 1
    ensures t in slots && |slots| == 1 ==> slots == {t}
  {
    if t in slots && |slots| == 1 {
      assert |slots - {t}| == 0;
      assert slots == slots - {t} + {t};
    }
  }

  // With positive TTLs only the clock makes it lapse.
  lemma OnlyTimeLapses(s: Store, op: Op)
    requires Inv(s) && Lapses(s, op)
    requires !op.Tick? && !op.WriteRelease? ==> op.ttl > 0
    ensures op.Tick?
  {
    if Exists(s) && !op.Tick? {
      SlotRemoval(HashOf(s).slots, op.token);
    }
  }

  function ExecFrom(s: Store, ops: seq<Op>): Store {
    if ops == [] then s else Step(ExecFrom(s, ops[..|ops| - 1]), ops[|ops| - 1])
  }

  const Fresh: Store := Store(0, None, 0)

  // In every reachable state the count is the number of reader fields and at
  // least one in mode r; in mode w there is an owner and no reader field.
  lemma {:induction false} FieldsAgree(ops: seq<Op>)
    ensures Inv(ExecFrom(Fresh, ops))
  {
    if ops != [] {
      FieldsAgree(ops[..|ops| - 1]);
      StepRefines(ExecFrom(Fresh, ops[..|ops| - 1]), ops[|ops| - 1]);
    }
  }

  // One step that is not t's own release leaves a registered reader registered,
  // unless the structure expires.
  lemma ReaderStays(s: Store, op: Op, t: Token)
    requires Inv(s) && Abstract(s).Readers? && t in Abstract(s).who
    requires !(op.ReadRelease? && op.token == t) && Exists(Step(s, op))
    ensures Inv(Step(s, op)) && Abstract(Step(s, op)).Readers? && t in Abstract(Step(s, op)).who
  {
    StepRefines(s, op);
  }

  // t is registered from `past` on: until t's own release, and as long as the
  // structure does not expire, it stays a reader and every writer is denied.
  lemma {:induction false} ReadersBlockWriters(past: seq<Op>, ops: seq<Op>, t: Token)
    requires var l := Abstract(ExecFrom(Fresh, past)); l.Readers? && t in l.who
    requires forall k :: 0 <= k < |ops| ==> !(ops[k].ReadRelease? && ops[k].token == t)
    requires forall k :: 0 <= k <= |ops| ==> Exists(ExecFrom(ExecFrom(Fresh, past), ops[..k]))
    ensures var s := ExecFrom(ExecFrom(Fresh, past), ops);
            && Inv(s)
            && Abstract(s).Readers? && t in Abstract(s).who
            && forall u: Token, ttl: nat :: Answer(s, WriteAcquire(u, ttl)) == 0
  {
    FieldsAgree(past);
    var start := ExecFrom(Fresh, past);
    assert ops[..|ops|] == ops;
    if ops != [] {
      var n := |ops| - 1;
      var p := ops[..n];
      assert forall k :: 0 <= k <= n ==> p[..k] == ops[..k];
      ReadersBlockWriters(past, p, t);
      ReaderStays(ExecFrom(start, p), ops[n], t);
    }
  }

  predicate HoldsAs(l: Lock, t: Token, mode: Mode) {
    if mode.R? then l.Readers? && t in l.who else l == Writer(t)
  }

  // Before time until, t still holds and the structure lasts that long.
  ghost predicate LeasedUntil(s: Store, t: Token, mode: Mode, until: nat) {
    s.now < until ==> Exists(s) && s.key.value.expiry >= until && HoldsAs(Abstract(s), t, mode)
  }

  predicate TtlAtLeast(op: Op, ttl: nat) {
    !op.WriteRelease? && !op.Tick? ==> op.ttl >= ttl
  }

  predicate Releases(op: Op, t: Token) {
    (op.ReadRelease? || op.WriteRelease?) && op.token == t
  }

  lemma StepKeepsLease(s: Store, op: Op, t: Token, mode: Mode, until: nat, ttl: nat)
    requires Inv(s) && LeasedUntil(s, t, mode, until) && until <= s.now + ttl
    requires TtlAtLeast(op, ttl) && !Releases(op, t)
    ensures LeasedUntil(Step(s, op), t, mode, until) && Step(s, op).now >= s.now
  {
    StepRefines(s, op);
    if op.ReadRelease? && Exists(s) {
      SlotRemoval(HashOf(s).slots, op.token);
    }
  }

  predicate Granted(s: Store, t: Token, mode: Mode, ttl: nat) {
    if mode.R? then ReadAcquireStep(s, t, ttl).1 == 1 else WriteAcquireStep(s, t, ttl).1 != 0
  }

  function AfterGrant(s: Store, t: Token, mode: Mode, ttl: nat): Store {
    if mode.R? then ReadAcquireStep(s, t, ttl).0 else WriteAcquireStep(s, t, ttl).0
  }

  // Where nobody uses a shorter TTL, a grant is good for its own: until its own
  // release or the end of its TTL the holder keeps the lock, whoever else
  // acquires, releases or extends.
  lemma {:induction false} GrantLastsItsTtl(past: seq<Op>, ops: seq<Op>, t: Token, mode: Mode, ttl: nat)
    requires Granted(ExecFrom(Fresh, past), t, mode, ttl)
    requires forall k :: 0 <= k < |ops| ==> TtlAtLeast(ops[k], ttl) && !Releases(ops[k], t)
    ensures var s := ExecFrom(Fresh, past);
            var later := ExecFrom(AfterGrant(s, t, mode, ttl), ops);
            Inv(later) && later.now >= s.now && LeasedUntil(later, t, mode, s.now + ttl)
  {
    var s := ExecFrom(Fresh, past);
    FieldsAgree(past);
    if ops == [] {
      StepRefines(s, if mode.R? then ReadAcquire(t, ttl) else WriteAcquire(t, ttl));
    } else {
      var n := |ops| - 1;
      GrantLastsItsTtl(past, ops[..n], t, mode, ttl);
      var granted := AfterGrant(s, t, mode, ttl);
      StepRefines(ExecFrom(granted, ops[..n]), ops[n]);
      StepKeepsLease(ExecFrom(granted, ops[..n]), ops[n], t, mode, s.now + ttl, ttl);
    }
  }

  predicate TtlOk(op: Op, ttl: nat, ttl2: nat) {
    !op.WriteRelease? && !op.Tick? ==> op.ttl == ttl || op.ttl == ttl2
  }

  // The run after a grant: other TTLs are ttl or ttl2, and t does not release.
  ghost predicate Follows(past: seq<Op>, ops: seq<Op>, t: Token, mode: Mode, ttl: nat, ttl2: nat) {
    && Granted(ExecFrom(Fresh, past), t, mode, ttl)
    && forall k :: 0 <= k < |ops| ==> TtlOk(ops[k], ttl, ttl2) && !Releases(ops[k], t)
  }

  ghost predicate Lasts(past: seq<Op>, ops: seq<Op>, t: Token, mode: Mode, ttl: nat) {
    var s := ExecFrom(Fresh, past);
    LeasedUntil(ExecFrom(AfterGrant(s, t, mode, ttl), ops), t, mode, s.now + ttl)
  }

  // One extend at a shorter TTL, in read mode by a token that holds nothing, ends
  // the grant before its time.
  lemma ShorterExtendEnds(mode: Mode, ttl: nat, ttl2: nat)
    requires ttl2 < ttl
    ensures var ops := [Extend(if mode.R? then 2 else 1, ttl2), Tick(ttl2)];
            Follows([], ops, 1, mode, ttl, ttl2) && !Lasts([], ops, 1, mode, ttl)
  {
    var a, b := Extend(if mode.R? then 2 else 1, ttl2), Tick(ttl2);
    assert ExecFrom(Fresh, []) == Fresh;
    var s0 := AfterGrant(Fresh, 1, mode, ttl);
    var s1 := Step(s0, a);
    var s2 := Step(s1, b);
    assert [a, b][..1] == [a] && [a][..0] == [];
    assert ExecFrom(s0, []) == s0 && ExecFrom(s0, [a]) == s1 && ExecFrom(s0, [a, b]) == s2;
    assert s2.now == ttl2 && !Exists(s2);
  }

  // Grants at ttl last in all runs whose other TTLs are ttl or ttl2 exactly when
  // ttl2 is not shorter.
  lemma GrantsLastIffNotShorter(mode: Mode, ttl: nat, ttl2: nat)
    ensures (forall past, ops, t :: Follows(past, ops, t, mode, ttl, ttl2) ==> Lasts(past, ops, t, mode, ttl)) <==> ttl2 >= ttl
  {
    if ttl2 >= ttl {
      forall past, ops, t | Follows(past, ops, t, mode, ttl, ttl2) ensures Lasts(past, ops, t, mode, ttl) {
        GrantLastsItsTtl(past, ops, t, mode, ttl);
      }
    } else {
      ShorterExtendEnds(mode, ttl, ttl2);
    }
  }

  // A token that neither reads nor writes may extend exactly when others read,
  // and then moves their lease.
  lemma StrangersExtendReaders(s: Store, t: Token, ttl: nat)
    requires Inv(s) && Exists(s) && !HoldsAs(Abstract(s), t, R) && !HoldsAs(Abstract(s), t, W)
    ensures ExtendStep(s, t, ttl).1 == 1 <==> HashOf(s).mode.R?
    ensures ExtendStep(s, t, ttl).0 ==
            if HashOf(s).mode.R? then s.(key := Some(Key(HashOf(s), s.now + ttl))) else s
  {
    StepRefines(s, Extend(t, ttl));
  }

  // A reader whose slot is gone reports loss and changes nothing.
  lemma StaleReleaseChangesNothing(s: Store, t: Token, ttl: nat)
    requires Inv(s) && (Abstract(s).Readers? ==> t !in Abstract(s).who)
    ensures ReadReleaseStep(s, t, ttl) == (s, -1)
  {
  }

  // Each grant's fence is larger than every fence before it.
  lemma {:induction false} FencesOnlyGrow(s: Store, ops: seq<Op>, t: Token, ttl: nat)
    ensures ExecFrom(s, ops).counter >= s.counter
    ensures var later := ExecFrom(s, ops);
            && (ReadAcquireStep(later, t, ttl).1 != 0 ==> ReadAcquireStep(later, t, ttl).2 > s.counter)
            && (WriteAcquireStep(later, t, ttl).1 != 0 ==> WriteAcquireStep(later, t, ttl).2 > s.counter)
  {
    if ops != [] {
      FencesOnlyGrow(s, ops[..|ops| - 1], t, ttl);
    }
  }
}
