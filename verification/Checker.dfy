/** The history checker: one loop over a single-key history, proved against a
    declarative reading of lease safety. */
module Checker {
  import opened Common

  datatype EventKind = Grant | Deny | ReleaseOk | ReleaseLost | WriteAccepted | WriteRejected

  datatype Event = Event(t: nat, worker: nat, kind: EventKind, fence: nat)

  datatype Hold = Hold(worker: nat, expires: nat)

  // The messages the checker formats, with the values they mention.
  datatype Reason =
    | GrantedWhileHeld(worker: nat, other: nat)
    | GrantWithoutFence
    | ReleasedUnheld(worker: nat)
    | LostWhileHeld(worker: nat)
    | StaleWriteAccepted(worker: nat)
    | FenceNotNewer(fence: nat, last: nat)

  datatype Violation = Violation(at: nat, reason: Reason)

  // What the loop carries from event to event.
  datatype CheckState = CheckState(active: seq<Hold>, lastAccepted: nat)

  function Retain(active: seq<Hold>, t: nat): (r: seq<Hold>) {
    if active == [] then []
    else if active[0].expires <= t then Retain(active[1..], t)
    else [active[0]] + Retain(active[1..], t)
  }

  // Index of the worker's first hold, or |active| when it has none.
  function Position(active: seq<Hold>, w: nat): (i: nat)
    ensures i <= |active|
    ensures i < |active| ==> active[i].worker == w
    ensures forall j :: 0 <= j < i ==> active[j].worker != w
  {
    if active == [] then 0
    else if active[0].worker == w then 0
    else 1 + Position(active[1..], w)
  }

  function CheckEvent(cs: CheckState, e: Event, ttl: nat): Result<CheckState, Violation> {
    var active := Retain(cs.active, e.t);
    var i := Position(active, e.worker);
    match e.kind
    case Grant =>
      if active != [] then Err(Violation(e.t, GrantedWhileHeld(e.worker, active[0].worker)))
      else if e.fence == 0 then Err(Violation(e.t, GrantWithoutFence))
      else Ok(CheckState(active + [Hold(e.worker, e.t + ttl)], cs.lastAccepted))
    case ReleaseOk =>
      if i < |active| then Ok(CheckState(active[..i] + active[i + 1..], cs.lastAccepted))
      else Err(Violation(e.t, ReleasedUnheld(e.worker)))
    case ReleaseLost =>
      if i < |active| && e.t < active[i].expires then Err(Violation(e.t, LostWhileHeld(e.worker)))
      else Ok(CheckState(active, cs.lastAccepted))
    case WriteAccepted =>
      if i == |active| then Err(Violation(e.t, StaleWriteAccepted(e.worker)))
      else if e.fence <= cs.lastAccepted then Err(Violation(e.t, FenceNotNewer(e.fence, cs.lastAccepted)))
      else Ok(CheckState(active, e.fence))
    case WriteRejected => Ok(CheckState(active, cs.lastAccepted))
    case Deny => Ok(CheckState(active, cs.lastAccepted))
  }

  // The whole loop as a fold; the first error sticks.
  function CheckFold(h: seq<Event>, ttl: nat): Result<CheckState, Violation> {
    if h == [] then Ok(CheckState([], 0))
    else FoldStep(CheckFold(h[..|h| - 1], ttl), h[|h| - 1], ttl)
  }

  function FoldStep(r: Result<CheckState, Violation>, e: Event, ttl: nat): Result<CheckState, Violation> {
    if r.Err? then r else CheckEvent(r.value, e, ttl)
  }

  lemma FoldAppend(h: seq<Event>, e: Event, ttl: nat)
    ensures CheckFold(h + [e], ttl) == FoldStep(CheckFold(h, ttl), e, ttl)
  {
    assert (h + [e])[..|h|] == h;
  }

  lemma {:induction false} FoldErrorSticks(h: seq<Event>, n: nat, ttl: nat)
    requires n <= |h|
    requires CheckFold(h[..n], ttl).Err?
    ensures CheckFold(h, ttl) == CheckFold(h[..n], ttl)
  {
    if n < |h| {
      var p := h[..|h| - 1];
      assert p[..n] == h[..n];
      FoldErrorSticks(p, n, ttl);
    } else {
      assert h[..n] == h;
    }
  }

  // ----------------------------------------------------------------------
  // Declarative specification
  // ----------------------------------------------------------------------

  // The hold opened by the grant at index g has not run out or been released
  // by the events before index n.
  ghost predicate LiveAfter(h: seq<Event>, ttl: nat, g: int, n: int)
    requires n <= |h|
  {
    && 0 <= g < n
    && h[g].kind == Grant
    && (forall j :: g < j < n ==> h[j].t < h[g].t + ttl)
    && (forall j :: g < j < n ==> !(h[j].kind == ReleaseOk && h[j].worker == h[g].worker))
  }

  // That hold is live when event k happens.
  ghost predicate LiveAt(h: seq<Event>, ttl: nat, g: int, k: int)
    requires k < |h|
  {
    LiveAfter(h, ttl, g, k) && h[k].t < h[g].t + ttl
  }

  ghost predicate HoldsAt(h: seq<Event>, ttl: nat, w: nat, k: int)
    requires k < |h|
  {
    exists g :: LiveAt(h, ttl, g, k) && h[g].worker == w
  }

  ghost predicate Sorted(h: seq<Event>) {
    forall i, j :: 0 <= i <= j < |h| ==> h[i].t <= h[j].t
  }

  // On a time-sorted history a hold is live from its grant until its TTL or its
  // worker's ReleaseOk, whichever comes first.
  lemma LiveAtWhenSorted(h: seq<Event>, ttl: nat, g: int, k: int)
    requires Sorted(h) && 0 <= k < |h|
    ensures LiveAt(h, ttl, g, k) <==>
            && 0 <= g < k && h[g].kind == Grant
            && h[k].t < h[g].t + ttl
            && !(exists j :: g < j < k && h[j].kind == ReleaseOk && h[j].worker == h[g].worker)
  {
    if 0 <= g < k && h[k].t < h[g].t + ttl {
      assert forall j :: g < j < k ==> h[j].t <= h[k].t;
    }
  }

  // What each kind of event must satisfy, in terms of the events before it.
  ghost predicate EventLegal(h: seq<Event>, ttl: nat, k: int)
    requires 0 <= k < |h|
  {
    var e := h[k];
    match e.kind
    case Grant => e.fence != 0 && forall g :: !LiveAt(h, ttl, g, k)
    case ReleaseOk => HoldsAt(h, ttl, e.worker, k)
    case ReleaseLost => !HoldsAt(h, ttl, e.worker, k)
    case WriteAccepted =>
      && HoldsAt(h, ttl, e.worker, k)
      && 0 < e.fence
      && forall j :: 0 <= j < k && h[j].kind == WriteAccepted ==> h[j].fence < e.fence
    case WriteRejected => true
    case Deny => true
  }

  ghost predicate Legal(h: seq<Event>, ttl: nat) {
    forall k :: 0 <= k < |h| ==> EventLegal(h, ttl, k)
  }

  // Event k is the earliest illegal one.
  ghost predicate FirstIllegal(h: seq<Event>, ttl: nat, k: int) {
    && 0 <= k < |h|
    && !EventLegal(h, ttl, k)
    && forall j :: 0 <= j < k ==> EventLegal(h, ttl, j)
  }

  // The reported reason is true of event k.
  ghost predicate Explains(h: seq<Event>, ttl: nat, k: int, v: Violation)
    requires 0 <= k < |h|
  {
    var e := h[k];
    && v.at == e.t
    && match v.reason
       case GrantedWhileHeld(w, other) =>
         e.kind == Grant && w == e.worker && HoldsAt(h, ttl, other, k)
       case GrantWithoutFence => e.kind == Grant && e.fence == 0
       case ReleasedUnheld(w) => e.kind == ReleaseOk && w == e.worker && !HoldsAt(h, ttl, w, k)
       case LostWhileHeld(w) => e.kind == ReleaseLost && w == e.worker && HoldsAt(h, ttl, w, k)
       case StaleWriteAccepted(w) => e.kind == WriteAccepted && w == e.worker && !HoldsAt(h, ttl, w, k)
       case FenceNotNewer(f, last) =>
         && e.kind == WriteAccepted && f == e.fence && f <= last
         && (last == 0 || exists j :: 0 <= j < k && h[j].kind == WriteAccepted && h[j].fence == last)
  }

  // ----------------------------------------------------------------------
  // The fold meets the specification
  // ----------------------------------------------------------------------

  // The active list, against the declarative holds.
  ghost predicate ActiveMatches(h: seq<Event>, ttl: nat, n: int, active: seq<Hold>)
    requires n <= |h|
  {
    && |active| <= 1
    && (active == [] ==> forall g :: !LiveAfter(h, ttl, g, n))
    && (|active| == 1 ==>
          exists g :: LiveAfter(h, ttl, g, n) && active[0] == Hold(h[g].worker, h[g].t + ttl))
    && (forall g1, g2 :: LiveAfter(h, ttl, g1, n) && LiveAfter(h, ttl, g2, n) ==> g1 == g2)
  }

  ghost predicate AcceptedMatches(h: seq<Event>, n: int, last: nat)
    requires n <= |h|
  {
    && (forall j :: 0 <= j < n && h[j].kind == WriteAccepted ==> h[j].fence <= last)
    && (last == 0 || exists j :: 0 <= j < n && h[j].kind == WriteAccepted && h[j].fence == last)
  }

  lemma RetainMatches(h: seq<Event>, ttl: nat, k: int, active: seq<Hold>)
    requires 0 <= k < |h|
    requires ActiveMatches(h, ttl, k, active)
    ensures var r := Retain(active, h[k].t);
            && |r| <= 1
            && (r == [] <==> forall g :: !LiveAt(h, ttl, g, k))
            && (r != [] ==> exists g :: LiveAt(h, ttl, g, k) && r[0] == Hold(h[g].worker, h[g].t + ttl))
    ensures forall w :: HoldsAt(h, ttl, w, k) <==> Position(Retain(active, h[k].t), w) < |Retain(active, h[k].t)|
  {
    var r := Retain(active, h[k].t);
    if active == [] {
    } else {
      var g :| LiveAfter(h, ttl, g, k) && active[0] == Hold(h[g].worker, h[g].t + ttl);
      assert active[1..] == [];
      assert Retain(active[1..], h[k].t) == [];
      assert forall g' :: LiveAt(h, ttl, g', k) ==> g' == g;
      if r != [] {
        assert LiveAt(h, ttl, g, k);
      }
      assert r == [] ==> h[g].t + ttl <= h[k].t;
      assert r != [] ==> forall w :: Position(r, w) < |r| <==> w == h[g].worker;
      assert forall w :: HoldsAt(h, ttl, w, k) <==> LiveAt(h, ttl, g, k) && w == h[g].worker;
    }
  }

  // One event: legal exactly when CheckEvent accepts it, and the two views of
  // the active holds stay in step.
  lemma EventMatches(h: seq<Event>, ttl: nat, k: int, cs: CheckState)
    requires 0 <= k < |h|
    requires ActiveMatches(h, ttl, k, cs.active) && AcceptedMatches(h, k, cs.lastAccepted)
    ensures CheckEvent(cs, h[k], ttl).Ok? <==> EventLegal(h, ttl, k)
    ensures var r := CheckEvent(cs, h[k], ttl);
            if r.Ok? then
              ActiveMatches(h, ttl, k + 1, r.value.active) && AcceptedMatches(h, k + 1, r.value.lastAccepted)
            else Explains(h, ttl, k, r.error)
  {
    var e := h[k];
    var active := Retain(cs.active, e.t);
    RetainMatches(h, ttl, k, cs.active);
    var r := CheckEvent(cs, e, ttl);
    if e.kind == Grant && active != [] {
      var g :| LiveAt(h, ttl, g, k) && active[0] == Hold(h[g].worker, h[g].t + ttl);
      assert HoldsAt(h, ttl, active[0].worker, k);
    }
    if e.kind == WriteAccepted && cs.lastAccepted != 0 {
      var j :| 0 <= j < k && h[j].kind == WriteAccepted && h[j].fence == cs.lastAccepted;
    }
    assert CheckEvent(cs, e, ttl).Ok? <==> EventLegal(h, ttl, k);
    if r.Ok? {
      NextActive(h, ttl, k, cs);
      if e.kind == WriteAccepted {
        assert h[k].kind == WriteAccepted && h[k].fence == r.value.lastAccepted;
      }
    }
  }

  // The holds live after event k, from those live at it.
  lemma LiveNext(h: seq<Event>, ttl: nat, k: int, g: int)
    requires 0 <= k < |h|
    ensures LiveAfter(h, ttl, g, k + 1) <==>
            (g == k && h[k].kind == Grant)
            || (LiveAt(h, ttl, g, k) && !(h[k].kind == ReleaseOk && h[k].worker == h[g].worker))
  {
  }

  lemma GrantedActive(h: seq<Event>, ttl: nat, k: int)
    requires 0 <= k < |h| && h[k].kind == Grant && forall g :: !LiveAt(h, ttl, g, k)
    ensures ActiveMatches(h, ttl, k + 1, [Hold(h[k].worker, h[k].t + ttl)])
  {
    var n := k + 1;
    forall g ensures LiveAfter(h, ttl, g, n) <==> g == k {
      LiveNext(h, ttl, k, g);
    }
  }

  lemma KeptActive(h: seq<Event>, ttl: nat, k: int, g: int)
    requires 0 <= k < |h| && h[k].kind != Grant && LiveAt(h, ttl, g, k)
    requires forall f :: LiveAt(h, ttl, f, k) ==> f == g
    ensures ActiveMatches(h, ttl, k + 1,
              if h[k].kind == ReleaseOk && h[k].worker == h[g].worker then [] else [Hold(h[g].worker, h[g].t + ttl)])
  {
    var n := k + 1;
    forall f ensures LiveAfter(h, ttl, f, n) <==> f == g && !(h[k].kind == ReleaseOk && h[k].worker == h[g].worker) {
      LiveNext(h, ttl, k, f);
    }
  }

  lemma NextActive(h: seq<Event>, ttl: nat, k: int, cs: CheckState)
    requires 0 <= k < |h|
    requires ActiveMatches(h, ttl, k, cs.active)
    requires CheckEvent(cs, h[k], ttl).Ok?
    ensures ActiveMatches(h, ttl, k + 1, CheckEvent(cs, h[k], ttl).value.active)
  {
    var e := h[k];
    var active := Retain(cs.active, e.t);
    RetainMatches(h, ttl, k, cs.active);
    OneHold(cs, e, ttl);
    if e.kind == Grant {
      GrantedActive(h, ttl, k);
    } else if active == [] {
      var n := k + 1;
      forall g ensures !LiveAfter(h, ttl, g, n) {
        LiveNext(h, ttl, k, g);
      }
    } else {
      var g :| LiveAt(h, ttl, g, k) && active[0] == Hold(h[g].worker, h[g].t + ttl);
      KeptActive(h, ttl, k, g);
      assert active == [active[0]];
    }
  }

  // What the fold's answer on the first n events says about them.
  ghost predicate FoldMeans(h: seq<Event>, ttl: nat, n: int, r: Result<CheckState, Violation>)
    requires n <= |h|
  {
    if r.Ok? then
      && (forall k :: 0 <= k < n ==> EventLegal(h, ttl, k))
      && ActiveMatches(h, ttl, n, r.value.active) && AcceptedMatches(h, n, r.value.lastAccepted)
    else
      exists k :: k < n && FirstIllegal(h, ttl, k) && Explains(h, ttl, k, r.error)
  }

  lemma MeaningGrows(h: seq<Event>, ttl: nat, n: nat, r: Result<CheckState, Violation>)
    requires n < |h| && FoldMeans(h, ttl, n, r)
    ensures FoldMeans(h, ttl, n + 1, FoldStep(r, h[n], ttl))
  {
    if r.Ok? {
      EventMatches(h, ttl, n, r.value);
      if FoldStep(r, h[n], ttl).Err? {
        assert FirstIllegal(h, ttl, n);
      }
    }
  }

  lemma {:induction false} FoldMatches(h: seq<Event>, ttl: nat, n: nat)
    requires n <= |h|
    ensures FoldMeans(h, ttl, n, CheckFold(h[..n], ttl))
  {
    if n > 0 {
      FoldMatches(h, ttl, n - 1);
      assert h[..n] == h[..n - 1] + [h[n - 1]];
      FoldAppend(h[..n - 1], h[n - 1], ttl);
      MeaningGrows(h, ttl, n - 1, CheckFold(h[..n - 1], ttl));
    }
  }

  // Soundness and completeness of the fold, with the earliest failing event.
  lemma FoldExact(h: seq<Event>, ttl: nat)
    ensures CheckFold(h, ttl).Ok? <==> Legal(h, ttl)
    ensures CheckFold(h, ttl).Err? ==>
              exists k :: FirstIllegal(h, ttl, k) && Explains(h, ttl, k, CheckFold(h, ttl).error)
  {
    FoldMatches(h, ttl, |h|);
    assert h[..|h|] == h;
  }

  lemma {:induction false} RetainTwice(active: seq<Hold>, t: nat, u: nat)
    requires t <= u
    ensures Retain(Retain(active, t), u) == Retain(active, u)
  {
    if active != [] {
      RetainTwice(active[1..], t, u);
      if active[0].expires > t {
        var r := Retain(active, t);
        assert r[0] == active[0] && r[1..] == Retain(active[1..], t);
      }
    }
  }

  lemma RetainOne(h: Hold, t: nat)
    ensures Retain([h], t) == if h.expires <= t then [] else [h]
  {
    assert [h][1..] == [];
    assert Retain([h][1..], t) == [];
  }

  // One event seen by a checker with at most one live hold, and what is live
  // then; None is an error.
  function AfterOne(active: seq<Hold>, lastAccepted: nat, e: Event, ttl: nat): Option<CheckState>
    requires |active| <= 1
  {
    var owned := active != [] && active[0].worker == e.worker;
    var same := Some(CheckState(active, lastAccepted));
    match e.kind
    case Grant =>
      if active != [] || e.fence == 0 then None
      else Some(CheckState(if ttl == 0 then [] else [Hold(e.worker, e.t + ttl)], lastAccepted))
    case ReleaseOk => if owned then Some(CheckState([], lastAccepted)) else None
    case ReleaseLost => if owned then None else same
    case WriteAccepted => if owned && e.fence > lastAccepted then Some(CheckState(active, e.fence)) else None
    case WriteRejected => same
    case Deny => same
  }

  // After h the checker has found nothing wrong; active is what is live at time t.
  ghost predicate Sees(h: seq<Event>, ttl: nat, t: nat, active: seq<Hold>, lastAccepted: nat) {
    var r := CheckFold(h, ttl);
    r.Ok? && Retain(r.value.active, t) == active && r.value.lastAccepted == lastAccepted
  }

  lemma SeesLater(h: seq<Event>, ttl: nat, t: nat, u: nat, active: seq<Hold>, lastAccepted: nat)
    requires Sees(h, ttl, t, active, lastAccepted) && t <= u
    ensures Sees(h, ttl, u, Retain(active, u), lastAccepted)
  {
    RetainTwice(CheckFold(h, ttl).value.active, t, u);
  }

  // CheckEvent, when at most one hold is live, answers as AfterOne says.
  lemma OneHold(cs: CheckState, e: Event, ttl: nat)
    requires |Retain(cs.active, e.t)| <= 1
    ensures var after := AfterOne(Retain(cs.active, e.t), cs.lastAccepted, e, ttl);
            var r := CheckEvent(cs, e, ttl);
            && (r.Ok? <==> after.Some?)
            && (r.Ok? ==> r.value.lastAccepted == after.value.lastAccepted)
            && (r.Ok? ==> r.value.active == if e.kind == Grant then [Hold(e.worker, e.t + ttl)] else after.value.active)
  {
    LiveHoldsOutlast(cs.active, e.t);
  }

  lemma {:induction false} LiveHoldsOutlast(active: seq<Hold>, t: nat)
    ensures forall i :: 0 <= i < |Retain(active, t)| ==> Retain(active, t)[i].expires > t
  {
    if active != [] {
      LiveHoldsOutlast(active[1..], t);
    }
  }

  // A list of live holds, none or one, is its own expiry pass.
  lemma RetainLiveHolds(active: seq<Hold>, t: nat)
    requires |active| <= 1 && forall i :: 0 <= i < |active| ==> active[i].expires > t
    ensures Retain(active, t) == active
  {
    if active != [] {
      RetainOne(active[0], t);
    }
  }

  lemma SeesEvent(h: seq<Event>, ttl: nat, e: Event, active: seq<Hold>, lastAccepted: nat)
    requires Sees(h, ttl, e.t, active, lastAccepted) && |active| <= 1
    ensures var after := AfterOne(active, lastAccepted, e, ttl);
            if after.None? then CheckFold(h + [e], ttl).Err?
            else Sees(h + [e], ttl, e.t, after.value.active, after.value.lastAccepted)
  {
    var cs := CheckFold(h, ttl).value;
    FoldAppend(h, e, ttl);
    OneHold(cs, e, ttl);
    LiveHoldsOutlast(cs.active, e.t);
    var after := AfterOne(active, lastAccepted, e, ttl);
    if after.Some? {
      if e.kind == Grant {
        RetainOne(Hold(e.worker, e.t + ttl), e.t);
      } else {
        RetainLiveHolds(after.value.active, e.t);
      }
    }
  }

  // What the loop may do with event n, given what it carries.
  lemma NextEvent(h: seq<Event>, n: nat, ttl: nat, cs: CheckState)
    requires n < |h| && CheckFold(h[..n], ttl) == Ok(cs)
    ensures CheckFold(h[..n + 1], ttl) == CheckEvent(cs, h[n], ttl)
    ensures CheckEvent(cs, h[n], ttl).Err? ==>
              !Legal(h, ttl) && exists k :: FirstIllegal(h, ttl, k) && Explains(h, ttl, k, CheckEvent(cs, h[n], ttl).error)
  {
    assert h[..n + 1] == h[..n] + [h[n]];
    FoldAppend(h[..n], h[n], ttl);
    if CheckFold(h[..n + 1], ttl).Err? {
      FoldErrorSticks(h, n + 1, ttl);
      FoldExact(h, ttl);
    }
  }

  // checker.rs: the loop itself.
  method Check(history: seq<Event>, ttl: nat) returns (r: Result<(), Violation>)
    ensures r.Ok? <==> Legal(history, ttl)
    ensures r.Err? ==> exists k :: FirstIllegal(history, ttl, k) && Explains(history, ttl, k, r.error)
  {
    var active: seq<Hold> := [];
    var lastAccepted := 0;
    for n := 0 to |history|
      invariant CheckFold(history[..n], ttl) == Ok(CheckState(active, lastAccepted))
    {
      var e := history[n];
      NextEvent(history, n, ttl, CheckState(active, lastAccepted));
      active := RetainLive(active, e.t);
      match e.kind {
        case Grant =>
          if |active| > 0 {
            return Err(Violation(e.t, GrantedWhileHeld(e.worker, active[0].worker)));
          }
          active := active + [Hold(e.worker, e.t + ttl)];
          if e.fence == 0 {
            return Err(Violation(e.t, GrantWithoutFence));
          }
        case ReleaseOk =>
          var i := FindWorker(active, e.worker);
          if i == |active| {
            return Err(Violation(e.t, ReleasedUnheld(e.worker)));
          }
          active := active[..i] + active[i + 1..];
        case ReleaseLost =>
          var i := FindWorker(active, e.worker);
          if i < |active| && e.t < active[i].expires {
            return Err(Violation(e.t, LostWhileHeld(e.worker)));
          }
        case WriteAccepted =>
          var i := FindWorker(active, e.worker);
          if i == |active| {
            return Err(Violation(e.t, StaleWriteAccepted(e.worker)));
          }
          if e.fence <= lastAccepted {
            return Err(Violation(e.t, FenceNotNewer(e.fence, lastAccepted)));
          }
          lastAccepted := e.fence;
        case WriteRejected =>
        case Deny =>
      }
    }
    assert history[..|history|] == history;
    FoldExact(history, ttl);
    r := Ok(());
  }

  // Vec::retain over the active holds.
  method RetainLive(active: seq<Hold>, t: nat) returns (kept: seq<Hold>)
    ensures kept == Retain(active, t)
  {
    kept := [];
    for i := 0 to |active|
      invariant kept + Retain(active[i..], t) == Retain(active, t)
    {
      if active[i].expires > t {
        kept := kept + [active[i]];
      }
    }
  }

  // The linear searches over the active holds.
  method FindWorker(active: seq<Hold>, w: nat) returns (i: nat)
    ensures i == Position(active, w)
  {
    i := 0;
    while i < |active| && active[i].worker != w
      invariant i <= |active|
      invariant forall j :: 0 <= j < i ==> active[j].worker != w
    {
      i := i + 1;
    }
  }
}
