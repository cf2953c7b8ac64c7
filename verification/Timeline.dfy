/** `sort_by_key` on event time: a stable sort, and the facts both history
    pipelines need about it. */
module Timeline {
  import opened Checker

  // Puts e before the first event that is not earlier than it.
  function Insert(e: Event, s: seq<Event>): seq<Event> {
    if s == [] || e.t <= s[0].t then [e] + s
    else [s[0]] + Insert(e, s[1..])
  }

  function SortByTime(s: seq<Event>): seq<Event> {
    if s == [] then [] else Insert(s[0], SortByTime(s[1..]))
  }

  // The events of one instant, in the order they appear.
  function AtTime(s: seq<Event>, t: nat): seq<Event> {
    if s == [] then []
    else (if s[0].t == t then [s[0]] else []) + AtTime(s[1..], t)
  }

  lemma {:induction false} InsertPermutes(e: Event, s: seq<Event>)
    ensures multiset(Insert(e, s)) == multiset{e} + multiset(s)
  {
    if s != [] && e.t > s[0].t {
      InsertPermutes(e, s[1..]);
      assert s == [s[0]] + s[1..];
    }
  }

  lemma {:induction false} InsertSorts(e: Event, s: seq<Event>)
    requires Sorted(s)
    ensures Sorted(Insert(e, s))
  {
    if s != [] && e.t > s[0].t {
      var rest := Insert(e, s[1..]);
      InsertSorts(e, s[1..]);
      InsertPermutes(e, s[1..]);
      forall j | 0 <= j < |rest| ensures s[0].t <= rest[j].t {
        assert rest[j] in multiset(rest);
        assert rest[j] == e || rest[j] in s[1..];
      }
    }
  }

  lemma {:induction false} InsertIsStable(e: Event, s: seq<Event>, t: nat)
    ensures AtTime(Insert(e, s), t) == (if e.t == t then [e] else []) + AtTime(s, t)
  {
    if s == [] || e.t <= s[0].t {
      assert ([e] + s)[1..] == s;
      AtTimeStep([e] + s, t);
    } else {
      var r := Insert(e, s);
      assert r[0] == s[0] && r[1..] == Insert(e, s[1..]);
      InsertIsStable(e, s[1..], t);
      AtTimeStep(r, t);
      AtTimeStep(s, t);
    }
  }

  lemma AtTimeStep(s: seq<Event>, t: nat)
    requires s != []
    ensures s[0].t == t ==> AtTime(s, t) == [s[0]] + AtTime(s[1..], t)
    ensures s[0].t != t ==> AtTime(s, t) == AtTime(s[1..], t)
  {
  }

  // The sort is a time-ordered permutation that keeps the order of
  // simultaneous events.
  lemma {:induction false} SortIsStable(s: seq<Event>)
    ensures Sorted(SortByTime(s))
    ensures multiset(SortByTime(s)) == multiset(s)
    ensures forall t: nat :: AtTime(SortByTime(s), t) == AtTime(s, t)
  {
    if s != [] {
      SortIsStable(s[1..]);
      InsertSorts(s[0], SortByTime(s[1..]));
      InsertPermutes(s[0], SortByTime(s[1..]));
      assert s == [s[0]] + s[1..];
      forall t: nat ensures AtTime(SortByTime(s), t) == AtTime(s, t) {
        InsertIsStable(s[0], SortByTime(s[1..]), t);
      }
    }
  }

  lemma {:induction false} SortKeepsSorted(s: seq<Event>)
    requires Sorted(s)
    ensures SortByTime(s) == s
  {
    if s != [] {
      SortKeepsSorted(s[1..]);
      assert s == [s[0]] + s[1..];
    }
  }
}
