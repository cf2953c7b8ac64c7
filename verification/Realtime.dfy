/** From recorded client operations to the checker: filter one key, convert,
    sort stably by completion time, check. */
module Realtime {
  import opened Common
  import opened Checker
  import opened Timeline

  datatype OpKind = TryAcquire | Release | Extend

  datatype HistoryEntry = HistoryEntry(
    key: string, op: OpKind, ok: bool, fence: nat, startUs: nat, endUs: nat)

  predicate Relevant(key: string, e: HistoryEntry) {
    e.key == key && !e.op.Extend?
  }

  // The fence doubles as the holder's identity.
  function Convert(e: HistoryEntry): Event
    requires !e.op.Extend?
  {
    var kind :=
      if e.op.TryAcquire? then (if e.ok then Grant else Deny)
      else if e.ok then ReleaseOk else ReleaseLost;
    Event(e.endUs / 1000, e.fence, kind, e.fence)
  }

  function ClientEvents(key: string, entries: seq<HistoryEntry>): seq<Event> {
    if entries == [] then []
    else ClientEvents(key, entries[..|entries| - 1]) +
         var e := entries[|entries| - 1]; if Relevant(key, e) then [Convert(e)] else []
  }

  function ClientHistory(key: string, entries: seq<HistoryEntry>): seq<Event> {
    SortByTime(ClientEvents(key, entries))
  }

  // Two grants in a legal, time-sorted history: the later one comes after the
  // earlier one's lease ran out or after its own release.
  lemma GrantsExcludeEachOther(h: seq<Event>, ttl: nat, i: int, j: int)
    requires Sorted(h) && Legal(h, ttl)
    requires 0 <= i < j < |h| && h[i].kind == Grant && h[j].kind == Grant
    ensures h[j].t >= h[i].t + ttl
         || exists k :: i < k < j && h[k].kind == ReleaseOk && h[k].worker == h[i].worker
  {
    assert EventLegal(h, ttl, j);
    assert !LiveAt(h, ttl, i, j);
    LiveAtWhenSorted(h, ttl, i, j);
  }

  // A recorder's snapshot is in completion order; there the sort is the
  // identity and the checker sees the operations as they completed.
  lemma {:induction false} CompletionOrderIsKept(key: string, entries: seq<HistoryEntry>)
    requires forall i, j :: 0 <= i <= j < |entries| ==> entries[i].endUs <= entries[j].endUs
    ensures ClientHistory(key, entries) == ClientEvents(key, entries)
    ensures forall k :: 0 <= k < |ClientEvents(key, entries)| ==>
              |entries| > 0 && ClientEvents(key, entries)[k].t <= entries[|entries| - 1].endUs / 1000
    ensures Sorted(ClientEvents(key, entries))
  {
    if entries != [] {
      var n := |entries| - 1;
      var p := entries[..n];
      CompletionOrderIsKept(key, p);
      if n > 0 {
        assert p[n - 1].endUs / 1000 <= entries[n].endUs / 1000;
      }
    }
    SortKeepsSorted(ClientEvents(key, entries));
  }

  // ----------------------------------------------------------------------
  // The verdict on the recorded entries themselves
  // ----------------------------------------------------------------------

  predicate Acquires(key: string, e: HistoryEntry) {
    e.key == key && e.op == TryAcquire && e.ok
  }

  predicate Releases(key: string, e: HistoryEntry) {
    e.key == key && e.op == Release && e.ok
  }

  predicate LosesRelease(key: string, e: HistoryEntry) {
    e.key == key && e.op == Release && !e.ok
  }

  // Entry i completes before entry j, in whole milliseconds and then as recorded.
  predicate Before(entries: seq<HistoryEntry>, i: int, j: int)
    requires 0 <= i < |entries| && 0 <= j < |entries|
  {
    entries[i].endUs / 1000 < entries[j].endUs / 1000 || (entries[i].endUs / 1000 == entries[j].endUs / 1000 && i < j)
  }

  // Entry j releases the fence of acquisition g after it and before entry i.
  ghost predicate ReleasedBy(key: string, entries: seq<HistoryEntry>, g: int, j: int, i: int)
    requires 0 <= g < |entries| && 0 <= i < |entries|
  {
    && 0 <= j < |entries| && Before(entries, g, j) && Before(entries, j, i)
    && Releases(key, entries[j]) && entries[j].fence == entries[g].fence
  }

  // When entry i completes, the acquisition g still holds the key: less than a lease has
  // gone by and its fence has not been released.
  ghost predicate HeldBy(key: string, entries: seq<HistoryEntry>, ttl: nat, g: int, i: int)
    requires 0 <= i < |entries|
  {
    && 0 <= g < |entries| && Acquires(key, entries[g]) && Before(entries, g, i)
    && entries[i].endUs / 1000 < entries[g].endUs / 1000 + ttl
    && !exists j :: ReleasedBy(key, entries, g, j, i)
  }

  ghost predicate FenceHeld(key: string, entries: seq<HistoryEntry>, ttl: nat, i: int)
    requires 0 <= i < |entries|
  {
    exists g :: HeldBy(key, entries, ttl, g, i) && entries[g].fence == entries[i].fence
  }

  // An acquisition carries a fence and finds the key free; a release finds its own fence
  // held, a failed one does not. Nothing else can be wrong.
  ghost predicate EntryLegal(key: string, entries: seq<HistoryEntry>, ttl: nat, i: int)
    requires 0 <= i < |entries|
  {
    && (Acquires(key, entries[i]) ==> entries[i].fence != 0 && forall g :: !HeldBy(key, entries, ttl, g, i))
    && (Releases(key, entries[i]) ==> FenceHeld(key, entries, ttl, i))
    && (LosesRelease(key, entries[i]) ==> !FenceHeld(key, entries, ttl, i))
  }

  ghost predicate EntriesLegal(key: string, entries: seq<HistoryEntry>, ttl: nat) {
    forall i :: 0 <= i < |entries| ==> EntryLegal(key, entries, ttl, i)
  }

  // The indices that become events, as recorded.
  function Kept(key: string, entries: seq<HistoryEntry>): seq<nat> {
    if entries == [] then []
    else Kept(key, entries[..|entries| - 1]) + if Relevant(key, entries[|entries| - 1]) then [|entries| - 1] else []
  }

  ghost predicate AllKept(key: string, entries: seq<HistoryEntry>, s: seq<nat>) {
    forall x :: 0 <= x < |s| ==> s[x] < |entries| && Relevant(key, entries[s[x]])
  }

  // The events of some entries.
  function EventsOf(key: string, entries: seq<HistoryEntry>, s: seq<nat>): (h: seq<Event>)
    requires AllKept(key, entries, s)
    ensures |h| == |s| && forall x :: 0 <= x < |s| ==> h[x] == Convert(entries[s[x]])
  {
    if s == [] then [] else [Convert(entries[s[0]])] + EventsOf(key, entries, s[1..])
  }

  lemma EventsOfPrefix(key: string, entries: seq<HistoryEntry>, n: nat, s: seq<nat>)
    requires n <= |entries| && AllKept(key, entries[..n], s)
    ensures AllKept(key, entries, s) && EventsOf(key, entries, s) == EventsOf(key, entries[..n], s)
  {
  }

  lemma EventsOfMore(key: string, entries: seq<HistoryEntry>, s: seq<nat>, i: nat)
    requires AllKept(key, entries, s) && i < |entries| && Relevant(key, entries[i])
    ensures AllKept(key, entries, s + [i]) && AllKept(key, entries, [i] + s)
    ensures EventsOf(key, entries, s + [i]) == EventsOf(key, entries, s) + [Convert(entries[i])]
    ensures EventsOf(key, entries, [i] + s) == [Convert(entries[i])] + EventsOf(key, entries, s)
  {
  }

  lemma {:induction false} KeptEvents(key: string, entries: seq<HistoryEntry>)
    ensures AllKept(key, entries, Kept(key, entries))
    ensures ClientEvents(key, entries) == EventsOf(key, entries, Kept(key, entries))
  {
    if entries != [] {
      var n: nat := |entries| - 1;
      KeptEvents(key, entries[..n]);
      EventsOfPrefix(key, entries, n, Kept(key, entries[..n]));
      if Relevant(key, entries[n]) {
        EventsOfMore(key, entries, Kept(key, entries[..n]), n);
      }
    }
  }

  ghost predicate Increasing(s: seq<nat>, n: nat) {
    && (forall x :: 0 <= x < |s| ==> s[x] < n)
    && forall x, y :: 0 <= x < y < |s| ==> s[x] < s[y]
  }

  lemma IncreasingMore(s: seq<nat>, n: nat)
    requires Increasing(s, n)
    ensures Increasing(s, n + 1) && Increasing(s + [n], n + 1)
  {
  }

  lemma {:induction false} KeptInOrder(key: string, entries: seq<HistoryEntry>)
    ensures Increasing(Kept(key, entries), |entries|)
    ensures forall i :: 0 <= i < |entries| && Relevant(key, entries[i]) ==> i in Kept(key, entries)
  {
    if entries != [] {
      var n: nat := |entries| - 1;
      KeptInOrder(key, entries[..n]);
      IncreasingMore(Kept(key, entries[..n]), n);
    }
  }

  // The sort by completion time, on indices.
  function InsertIndex(entries: seq<HistoryEntry>, i: nat, s: seq<nat>): seq<nat>
    requires i < |entries| && forall x :: 0 <= x < |s| ==> s[x] < |entries|
  {
    if s == [] || entries[i].endUs / 1000 <= entries[s[0]].endUs / 1000 then [i] + s
    else [s[0]] + InsertIndex(entries, i, s[1..])
  }

  // The entries of s, each once, ordered by completion.
  ghost predicate Ordered(entries: seq<HistoryEntry>, s: seq<nat>) {
    && (forall x :: 0 <= x < |s| ==> s[x] < |entries|)
    && (forall x, y :: 0 <= x < y < |s| ==> Before(entries, s[x], s[y]))
  }

  lemma {:induction false} InsertIndexEvents(key: string, entries: seq<HistoryEntry>, i: nat, s: seq<nat>)
    requires AllKept(key, entries, s) && i < |entries| && Relevant(key, entries[i])
    ensures AllKept(key, entries, InsertIndex(entries, i, s))
    ensures EventsOf(key, entries, InsertIndex(entries, i, s)) == Insert(Convert(entries[i]), EventsOf(key, entries, s))
  {
    if s != [] && entries[i].endUs / 1000 > entries[s[0]].endUs / 1000 {
      InsertIndexEvents(key, entries, i, s[1..]);
      EventsOfMore(key, entries, InsertIndex(entries, i, s[1..]), s[0]);
    } else {
      EventsOfMore(key, entries, s, i);
    }
  }

  lemma {:induction false} InsertIndexMembers(entries: seq<HistoryEntry>, i: nat, s: seq<nat>)
    requires i < |entries| && forall x :: 0 <= x < |s| ==> s[x] < |entries|
    ensures forall j :: j in InsertIndex(entries, i, s) <==> j == i || j in s
  {
    if s != [] && entries[i].endUs / 1000 > entries[s[0]].endUs / 1000 {
      InsertIndexMembers(entries, i, s[1..]);
      assert s == [s[0]] + s[1..];
    }
  }

  lemma {:induction false} InsertIndexOrders(entries: seq<HistoryEntry>, i: nat, s: seq<nat>)
    requires i < |entries| && Ordered(entries, s)
    requires forall x :: 0 <= x < |s| ==> i < s[x]
    ensures Ordered(entries, InsertIndex(entries, i, s))
  {
    if s != [] && entries[i].endUs / 1000 > entries[s[0]].endUs / 1000 {
      var r := InsertIndex(entries, i, s[1..]);
      InsertIndexOrders(entries, i, s[1..]);
      InsertIndexMembers(entries, i, s[1..]);
      forall y | 0 <= y < |r| ensures r[y] < |entries| && Before(entries, s[0], r[y]) {
        assert r[y] in r;
      }
    }
  }

  // Some order of the entries s that yields the sorted events.
  lemma {:induction false} SortedIndices(key: string, entries: seq<HistoryEntry>, s: seq<nat>) returns (r: seq<nat>)
    requires AllKept(key, entries, s) && forall x, y :: 0 <= x < y < |s| ==> s[x] < s[y]
    ensures Ordered(entries, r) && AllKept(key, entries, r) && forall j :: j in r <==> j in s
    ensures EventsOf(key, entries, r) == SortByTime(EventsOf(key, entries, s))
  {
    if s == [] {
      r := [];
    } else {
      var rest := SortedIndices(key, entries, s[1..]);
      forall x | 0 <= x < |rest| ensures s[0] < rest[x] {
        assert rest[x] in rest;
      }
      r := InsertIndex(entries, s[0], rest);
      InsertIndexMembers(entries, s[0], rest);
      InsertIndexOrders(entries, s[0], rest);
      InsertIndexEvents(key, entries, s[0], rest);
      assert s == [s[0]] + s[1..];
      assert EventsOf(key, entries, s)[1..] == EventsOf(key, entries, s[1..]);
    }
  }

  // The history h tells exactly the entries of this key, in the order r.
  ghost predicate Tells(key: string, entries: seq<HistoryEntry>, r: seq<nat>, h: seq<Event>) {
    && Ordered(entries, r) && AllKept(key, entries, r)
    && (forall i :: 0 <= i < |entries| && Relevant(key, entries[i]) ==> i in r)
    && |h| == |r| && forall x :: 0 <= x < |r| ==> h[x] == Convert(entries[r[x]])
  }

  lemma HistoryTells(key: string, entries: seq<HistoryEntry>) returns (r: seq<nat>)
    ensures Tells(key, entries, r, ClientHistory(key, entries))
  {
    KeptEvents(key, entries);
    KeptInOrder(key, entries);
    r := SortedIndices(key, entries, Kept(key, entries));
  }

  lemma TellsInOrder(key: string, entries: seq<HistoryEntry>, r: seq<nat>, h: seq<Event>, x: nat, y: nat)
    requires Tells(key, entries, r, h) && x < |r| && y < |r|
    ensures x < y <==> Before(entries, r[x], r[y])
  {
    if y < x {
      assert Before(entries, r[y], r[x]);
    }
  }

  lemma TellsSorted(key: string, entries: seq<HistoryEntry>, r: seq<nat>, h: seq<Event>)
    requires Tells(key, entries, r, h)
    ensures Sorted(h)
  {
    forall i, j | 0 <= i <= j < |h| ensures h[i].t <= h[j].t {
      assert i < j ==> Before(entries, r[i], r[j]);
    }
  }

  lemma ReleasesAgree(key: string, entries: seq<HistoryEntry>, r: seq<nat>, h: seq<Event>, g: nat, k: nat)
    requires Tells(key, entries, r, h) && g < |r| && k < |r|
    ensures (exists j :: g < j < k && h[j].kind == ReleaseOk && h[j].worker == h[g].worker)
       <==> (exists j :: ReleasedBy(key, entries, r[g], j, r[k]))
  {
    forall j | g < j < k && h[j].kind == ReleaseOk && h[j].worker == h[g].worker
      ensures ReleasedBy(key, entries, r[g], r[j], r[k])
    {
      assert Before(entries, r[g], r[j]) && Before(entries, r[j], r[k]);
    }
    forall j | ReleasedBy(key, entries, r[g], j, r[k])
      ensures exists x :: g < x < k && h[x].kind == ReleaseOk && h[x].worker == h[g].worker
    {
      assert j in r;
      var x: nat :| x < |r| && r[x] == j;
      TellsInOrder(key, entries, r, h, g, x);
      TellsInOrder(key, entries, r, h, x, k);
    }
  }

  lemma HeldIsLive(key: string, entries: seq<HistoryEntry>, r: seq<nat>, h: seq<Event>, ttl: nat, g: nat, k: nat)
    requires Tells(key, entries, r, h) && g < |r| && k < |r|
    ensures LiveAt(h, ttl, g, k) <==> HeldBy(key, entries, ttl, r[g], r[k])
  {
    TellsSorted(key, entries, r, h);
    LiveAtWhenSorted(h, ttl, g, k);
    TellsInOrder(key, entries, r, h, g, k);
    ReleasesAgree(key, entries, r, h, g, k);
  }

  lemma LiveIsHeld(key: string, entries: seq<HistoryEntry>, r: seq<nat>, h: seq<Event>, ttl: nat, k: nat, g: int)
    requires Tells(key, entries, r, h) && k < |r| && LiveAt(h, ttl, g, k)
    ensures 0 <= g < |r| && HeldBy(key, entries, ttl, r[g], r[k]) && h[g].worker == entries[r[g]].fence
  {
    HeldIsLive(key, entries, r, h, ttl, g, k);
  }

  lemma HeldByLive(key: string, entries: seq<HistoryEntry>, r: seq<nat>, h: seq<Event>, ttl: nat, k: nat, i: int) returns (g: nat)
    requires Tells(key, entries, r, h) && k < |r| && HeldBy(key, entries, ttl, i, r[k])
    ensures g < |r| && r[g] == i && LiveAt(h, ttl, g, k) && h[g].worker == entries[i].fence
  {
    assert i in r;
    g :| g < |r| && r[g] == i;
    HeldIsLive(key, entries, r, h, ttl, g, k);
  }

  lemma HoldsAreHeld(key: string, entries: seq<HistoryEntry>, r: seq<nat>, h: seq<Event>, ttl: nat, k: nat)
    requires Tells(key, entries, r, h) && k < |r|
    ensures (exists g :: LiveAt(h, ttl, g, k)) <==> (exists g :: HeldBy(key, entries, ttl, g, r[k]))
    ensures HoldsAt(h, ttl, h[k].worker, k) <==> FenceHeld(key, entries, ttl, r[k])
  {
    if g :| LiveAt(h, ttl, g, k) {
      LiveIsHeld(key, entries, r, h, ttl, k, g);
    }
    if HoldsAt(h, ttl, h[k].worker, k) {
      var g :| LiveAt(h, ttl, g, k) && h[g].worker == h[k].worker;
      LiveIsHeld(key, entries, r, h, ttl, k, g);
    }
    if i :| HeldBy(key, entries, ttl, i, r[k]) {
      var g := HeldByLive(key, entries, r, h, ttl, k, i);
    }
    if FenceHeld(key, entries, ttl, r[k]) {
      var i :| HeldBy(key, entries, ttl, i, r[k]) && entries[i].fence == entries[r[k]].fence;
      var g := HeldByLive(key, entries, r, h, ttl, k, i);
    }
  }

  lemma LegalEventsAreLegalEntries(key: string, entries: seq<HistoryEntry>, r: seq<nat>, h: seq<Event>, ttl: nat, k: nat)
    requires Tells(key, entries, r, h) && k < |r|
    ensures EventLegal(h, ttl, k) <==> EntryLegal(key, entries, ttl, r[k])
  {
    HoldsAreHeld(key, entries, r, h, ttl, k);
  }

  // The checker's verdict is legality of the entries.
  lemma LegalIffEntriesLegal(key: string, entries: seq<HistoryEntry>, ttl: nat)
    ensures Legal(ClientHistory(key, entries), ttl) <==> EntriesLegal(key, entries, ttl)
  {
    var h := ClientHistory(key, entries);
    var r := HistoryTells(key, entries);
    forall k: nat | k < |r| ensures EventLegal(h, ttl, k) <==> EntryLegal(key, entries, ttl, r[k]) {
      LegalEventsAreLegalEntries(key, entries, r, h, ttl, k);
    }
    if Legal(h, ttl) {
      forall i | 0 <= i < |entries| ensures EntryLegal(key, entries, ttl, i) {
        if Relevant(key, entries[i]) {
          var k :| 0 <= k < |r| && r[k] == i;
          assert EventLegal(h, ttl, k);
        }
      }
    }
  }

  // Entry i is the first to complete illegally, and the violation says when and how.
  ghost predicate FirstIllegalEntry(key: string, entries: seq<HistoryEntry>, ttl: nat, i: int, v: Violation) {
    && 0 <= i < |entries| && !EntryLegal(key, entries, ttl, i)
    && (forall j :: 0 <= j < |entries| && Before(entries, j, i) ==> EntryLegal(key, entries, ttl, j))
    && v.at == entries[i].endUs / 1000
    && match v.reason
       case GrantedWhileHeld(w, other) =>
         && Acquires(key, entries[i]) && w == entries[i].fence
         && exists g :: HeldBy(key, entries, ttl, g, i) && entries[g].fence == other
       case GrantWithoutFence => Acquires(key, entries[i]) && entries[i].fence == 0
       case ReleasedUnheld(w) => Releases(key, entries[i]) && w == entries[i].fence
       case LostWhileHeld(w) => LosesRelease(key, entries[i]) && w == entries[i].fence
       case _ => false
  }

  lemma HolderIsHeld(key: string, entries: seq<HistoryEntry>, r: seq<nat>, h: seq<Event>, ttl: nat, k: nat, w: nat)
    requires Tells(key, entries, r, h) && k < |r| && HoldsAt(h, ttl, w, k)
    ensures exists g :: HeldBy(key, entries, ttl, g, r[k]) && entries[g].fence == w
  {
    var g :| LiveAt(h, ttl, g, k) && h[g].worker == w;
    LiveIsHeld(key, entries, r, h, ttl, k, g);
  }

  lemma FirstEventIsFirstEntry(key: string, entries: seq<HistoryEntry>, r: seq<nat>, h: seq<Event>, ttl: nat, k: nat, v: Violation)
    requires Tells(key, entries, r, h) && FirstIllegal(h, ttl, k) && Explains(h, ttl, k, v)
    ensures FirstIllegalEntry(key, entries, ttl, r[k], v)
  {
    LegalEventsAreLegalEntries(key, entries, r, h, ttl, k);
    forall j | 0 <= j < |entries| && Before(entries, j, r[k]) ensures EntryLegal(key, entries, ttl, j) {
      if Relevant(key, entries[j]) {
        assert j in r;
        var x: nat :| x < |r| && r[x] == j;
        TellsInOrder(key, entries, r, h, x, k);
        LegalEventsAreLegalEntries(key, entries, r, h, ttl, x);
      }
    }
    if v.reason.GrantedWhileHeld? {
      HolderIsHeld(key, entries, r, h, ttl, k, v.reason.other);
    }
  }

  lemma ViolationIsFirst(key: string, entries: seq<HistoryEntry>, ttl: nat, k: nat, v: Violation)
    requires var h := ClientHistory(key, entries); FirstIllegal(h, ttl, k) && Explains(h, ttl, k, v)
    ensures exists i :: FirstIllegalEntry(key, entries, ttl, i, v)
  {
    var r := HistoryTells(key, entries);
    FirstEventIsFirstEntry(key, entries, r, ClientHistory(key, entries), ttl, k, v);
  }

  // Of two acquisitions that pass, the later completes a lease after the earlier or after
  // the release of its fence.
  lemma AcquisitionsExcludeEachOther(key: string, entries: seq<HistoryEntry>, ttl: nat, i: nat, j: nat)
    requires EntriesLegal(key, entries, ttl) && i < |entries| && j < |entries|
    requires Acquires(key, entries[i]) && Acquires(key, entries[j]) && Before(entries, i, j)
    ensures entries[j].endUs / 1000 >= entries[i].endUs / 1000 + ttl
         || exists k :: 0 <= k < |entries| && Before(entries, i, k) && Before(entries, k, j)
              && Releases(key, entries[k]) && entries[k].fence == entries[i].fence
  {
    assert EntryLegal(key, entries, ttl, j) && !HeldBy(key, entries, ttl, i, j);
  }

  // ----------------------------------------------------------------------
  // What cannot change the verdict
  // ----------------------------------------------------------------------

  // A refused acquisition, an extension, or anything under another key.
  predicate Silent(key: string, e: HistoryEntry) {
    e.key != key || e.op == Extend || (e.op == TryAcquire && !e.ok)
  }

  function With(entries: seq<HistoryEntry>, n: nat, e: HistoryEntry): seq<HistoryEntry>
    requires n <= |entries|
  {
    entries[..n] + [e] + entries[n..]
  }

  // Where the recorded entries are afterwards, and where they were.
  function Shifted(n: nat, i: int): int {
    if i < n then i else i + 1
  }

  function Unshifted(n: nat, i: int): int {
    if i < n then i else i - 1
  }

  lemma ShiftedEntry(entries: seq<HistoryEntry>, n: nat, e: HistoryEntry, i: int)
    requires n <= |entries| && 0 <= i < |entries|
    ensures With(entries, n, e)[Shifted(n, i)] == entries[i] && With(entries, n, e)[n] == e
  {
  }

  lemma SilentKeepsRelease(key: string, entries: seq<HistoryEntry>, n: nat, e: HistoryEntry, g: int, i: int)
    requires n <= |entries| && Silent(key, e) && 0 <= g < |entries| && 0 <= i < |entries|
    ensures (exists j :: ReleasedBy(key, With(entries, n, e), Shifted(n, g), j, Shifted(n, i)))
       <==> (exists j :: ReleasedBy(key, entries, g, j, i))
  {
    var all := With(entries, n, e);
    ShiftedEntry(entries, n, e, g);
    ShiftedEntry(entries, n, e, i);
    if j :| ReleasedBy(key, entries, g, j, i) {
      ShiftedEntry(entries, n, e, j);
      assert ReleasedBy(key, all, Shifted(n, g), Shifted(n, j), Shifted(n, i));
    }
    if j :| ReleasedBy(key, all, Shifted(n, g), j, Shifted(n, i)) {
      assert j != n;
      ShiftedEntry(entries, n, e, Unshifted(n, j));
      assert ReleasedBy(key, entries, g, Unshifted(n, j), i);
    }
  }

  lemma SilentKeepsHeld(key: string, entries: seq<HistoryEntry>, ttl: nat, n: nat, e: HistoryEntry, g: int, i: int)
    requires n <= |entries| && Silent(key, e) && 0 <= g < |entries| && 0 <= i < |entries|
    ensures HeldBy(key, With(entries, n, e), ttl, Shifted(n, g), Shifted(n, i)) <==> HeldBy(key, entries, ttl, g, i)
  {
    ShiftedEntry(entries, n, e, g);
    ShiftedEntry(entries, n, e, i);
    SilentKeepsRelease(key, entries, n, e, g, i);
  }

  lemma HeldByRecorded(key: string, entries: seq<HistoryEntry>, ttl: nat, n: nat, e: HistoryEntry, g: int, i: int)
    requires n <= |entries| && Silent(key, e) && 0 <= i < |entries|
    requires HeldBy(key, With(entries, n, e), ttl, g, Shifted(n, i))
    ensures var f := Unshifted(n, g);
            0 <= f < |entries| && HeldBy(key, entries, ttl, f, i) && entries[f].fence == With(entries, n, e)[g].fence
  {
    ShiftedEntry(entries, n, e, i);
    assert g != n;
    ShiftedEntry(entries, n, e, Unshifted(n, g));
    SilentKeepsHeld(key, entries, ttl, n, e, Unshifted(n, g), i);
  }

  lemma SilentKeepsFenceHeld(key: string, entries: seq<HistoryEntry>, ttl: nat, n: nat, e: HistoryEntry, i: int)
    requires n <= |entries| && Silent(key, e) && 0 <= i < |entries|
    ensures (exists g :: HeldBy(key, With(entries, n, e), ttl, g, Shifted(n, i))) <==> (exists g :: HeldBy(key, entries, ttl, g, i))
    ensures FenceHeld(key, With(entries, n, e), ttl, Shifted(n, i)) <==> FenceHeld(key, entries, ttl, i)
  {
    var all := With(entries, n, e);
    ShiftedEntry(entries, n, e, i);
    if g :| HeldBy(key, all, ttl, g, Shifted(n, i)) {
      HeldByRecorded(key, entries, ttl, n, e, g, i);
    }
    if FenceHeld(key, all, ttl, Shifted(n, i)) {
      var g :| HeldBy(key, all, ttl, g, Shifted(n, i)) && all[g].fence == all[Shifted(n, i)].fence;
      HeldByRecorded(key, entries, ttl, n, e, g, i);
    }
    if g :| HeldBy(key, entries, ttl, g, i) {
      SilentKeepsHeld(key, entries, ttl, n, e, g, i);
    }
    if FenceHeld(key, entries, ttl, i) {
      var g :| HeldBy(key, entries, ttl, g, i) && entries[g].fence == entries[i].fence;
      ShiftedEntry(entries, n, e, g);
      SilentKeepsHeld(key, entries, ttl, n, e, g, i);
    }
  }

  lemma SilentKeepsLegal(key: string, entries: seq<HistoryEntry>, ttl: nat, n: nat, e: HistoryEntry, i: int)
    requires n <= |entries| && Silent(key, e) && 0 <= i < |entries|
    ensures EntryLegal(key, With(entries, n, e), ttl, Shifted(n, i)) <==> EntryLegal(key, entries, ttl, i)
  {
    ShiftedEntry(entries, n, e, i);
    SilentKeepsFenceHeld(key, entries, ttl, n, e, i);
  }

  // Recorded anywhere, such an entry leaves the verdict on the others as it was.
  lemma SilentEntriesDoNotMatter(key: string, entries: seq<HistoryEntry>, ttl: nat, n: nat, e: HistoryEntry)
    requires n <= |entries| && Silent(key, e)
    ensures EntriesLegal(key, With(entries, n, e), ttl) <==> EntriesLegal(key, entries, ttl)
  {
    var all := With(entries, n, e);
    forall i | 0 <= i < |entries| ensures EntryLegal(key, all, ttl, Shifted(n, i)) <==> EntryLegal(key, entries, ttl, i) {
      SilentKeepsLegal(key, entries, ttl, n, e, i);
    }
    if EntriesLegal(key, entries, ttl) {
      forall j | 0 <= j < |all| ensures EntryLegal(key, all, ttl, j) {
        if j != n {
          assert j == Shifted(n, Unshifted(n, j)) && EntryLegal(key, entries, ttl, Unshifted(n, j));
        }
      }
    }
  }

  method CheckClientHistory(key: string, entries: seq<HistoryEntry>, ttl: nat)
    returns (r: Result<(), Violation>)
    ensures var h := ClientHistory(key, entries);
            && (r.Ok? <==> Legal(h, ttl))
            && (r.Err? ==> exists k :: FirstIllegal(h, ttl, k) && Explains(h, ttl, k, r.error))
    ensures r.Ok? <==> EntriesLegal(key, entries, ttl)
    ensures r.Err? ==> exists i :: FirstIllegalEntry(key, entries, ttl, i, r.error)
  {
    var events: seq<Event> := [];
    for n := 0 to |entries|
      invariant events == ClientEvents(key, entries[..n])
    {
      var e := entries[n];
      assert entries[..n + 1][..n] == entries[..n];
      if e.key == key {
        match e.op {
          case TryAcquire =>
            events := events + [Event(e.endUs / 1000, e.fence, if e.ok then Grant else Deny, e.fence)];
          case Release =>
            events := events + [Event(e.endUs / 1000, e.fence, if e.ok then ReleaseOk else ReleaseLost, e.fence)];
          case Extend =>
        }
      }
    }
    assert entries[..|entries|] == entries;
    SortIsStable(events);
    events := SortByTime(events);
    r := Check(events, ttl);
    LegalIffEntriesLegal(key, entries, ttl);
    if r.Err? {
      ghost var k: nat :| FirstIllegal(events, ttl, k) && Explains(events, ttl, k, r.error);
      ViolationIsFirst(key, entries, ttl, k, r.error);
    }
  }
}
