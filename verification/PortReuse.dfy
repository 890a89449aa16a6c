/** The order in which the daemon's pool reuses its ports: the documentation promises the
    oldest released one. */
module PortReuse {
  import opened Text
  import opened PortPool

  /** The number of the event that last freed slot i, or 0 if it never was in use. */
  function ReleasedAt(lo: int, hi: int, events: seq<Event>, i: nat): (n: nat)
    requires lo <= hi && i <= hi - lo
    ensures n <= |events|
  {
    if events == [] then 0
    else
      var front := events[..|events| - 1];
      if events[|events| - 1] == ReleaseOf(lo + i) && Trail(lo, hi, front).pool.slots[i].now then |events|
      else ReleasedAt(lo, hi, front, i)
  }

  /** The next grant is of a free port, and of the one released the longest ago. */
  predicate GrantsOldest(lo: int, hi: int, events: seq<Event>)
    requires lo <= hi
  {
    var slots := Trail(lo, hi, events).pool.slots;
    var i := Pick(slots, 0);
    && !slots[i].now
    && forall j :: 0 <= j < |slots| && !slots[j].now ==> ReleasedAt(lo, hi, events, i) <= ReleasedAt(lo, hi, events, j)
  }

  /** Every grant of a run is the promised one. */
  predicate KeepsOrder(lo: int, hi: int, events: seq<Event>)
    requires lo <= hi
  {
    events == [] ||
    (var front := events[..|events| - 1];
     KeepsOrder(lo, hi, front) && (events[|events| - 1].Reservation? ==> GrantsOldest(lo, hi, front)))
  }

  // ---------- ports that come back in the order they went out ----------

  /** The number of the event that last granted slot i, or 0 if it never was granted. */
  function GrantedAt(lo: int, hi: int, events: seq<Event>, i: nat): (n: nat)
    requires lo <= hi && i <= hi - lo
    ensures n <= |events|
  {
    if events == [] then 0
    else
      var front := events[..|events| - 1];
      if events[|events| - 1].Reservation? && Pick(Trail(lo, hi, front).pool.slots, 0) == i then |events|
      else GrantedAt(lo, hi, front, i)
  }

  /** Slot i is out, and was granted the longest ago of all that are. */
  predicate OldestOut(lo: int, hi: int, events: seq<Event>, i: nat)
    requires lo <= hi
  {
    var slots := Trail(lo, hi, events).pool.slots;
    && i < |slots| && slots[i].now
    && forall j :: 0 <= j < |slots| && slots[j].now ==> GrantedAt(lo, hi, events, i) <= GrantedAt(lo, hi, events, j)
  }

  /** A release of the port granted the longest ago, or one that raises. */
  predicate InGrantOrder(lo: int, hi: int, events: seq<Event>, port: int)
    requires lo <= hi
  {
    var slots := Trail(lo, hi, events).pool.slots;
    forall i: nat :: i < |slots| && lo + i == port && slots[i].now ==> OldestOut(lo, hi, events, i)
  }

  /** From event number n on, each release that succeeds is of the port granted the longest ago. */
  predicate FifoFrom(lo: int, hi: int, events: seq<Event>, n: nat)
    requires lo <= hi
  {
    |events| <= n ||
    (var front := events[..|events| - 1];
     && FifoFrom(lo, hi, front, n)
     && (events[|events| - 1].ReleaseOf? ==> InGrantOrder(lo, hi, front, events[|events| - 1].port)))
  }

  /** The ports that are out are the h slots before slot r, around the ring. */
  predicate Out(n: nat, r: nat, h: nat, i: int) {
    r - h <= i < r || r - h + n <= i
  }

  /** Round q has come to slot r, and the last h ports granted are out. */
  function Ring(lo: int, n: nat, q: nat, r: nat, h: nat): Pool {
    Pool(seq(n, i => Slot(lo + i, if i < r then q + 1 else q, Out(n, r, h, i))), h)
  }

  /** Starting at slot r, i comes up no later than j. */
  predicate Sooner(i: int, j: int, r: int) {
    if (i < r) == (j < r) then i <= j else r <= i
  }

  /** The free ports were released, ... */
  ghost predicate FreeInTurn(lo: int, hi: int, events: seq<Event>, r: nat, h: nat)
    requires lo <= hi
  {
    var n := hi + 1 - lo;
    forall i, j :: 0 <= i < n && 0 <= j < n && !Out(n, r, h, i) && !Out(n, r, h, j) && Sooner(i, j, r) ==>
      ReleasedAt(lo, hi, events, i) <= ReleasedAt(lo, hi, events, j)
  }

  /** ... and those that are out granted, in the order of the ring. */
  ghost predicate OutInTurn(lo: int, hi: int, events: seq<Event>, r: nat, h: nat)
    requires lo <= hi
  {
    var n := hi + 1 - lo;
    forall i, j :: 0 <= i < n && 0 <= j < n && Out(n, r, h, i) && Out(n, r, h, j) && Sooner(i, j, r) && i != j ==>
      GrantedAt(lo, hi, events, i) < GrantedAt(lo, hi, events, j)
  }

  ghost predicate RingAt(lo: int, hi: int, events: seq<Event>, q: nat, r: nat, h: nat)
    requires lo <= hi
  {
    && r < hi + 1 - lo && h <= hi + 1 - lo
    && Trail(lo, hi, events).pool == Ring(lo, hi + 1 - lo, q, r, h)
    && FreeInTurn(lo, hi, events, r, h) && OutInTurn(lo, hi, events, r, h)
  }

  lemma {:induction false} PickRing(lo: int, n: nat, q: nat, r: nat, h: nat)
    requires r < n && h < n
    ensures Pick(Ring(lo, n, q, r, h).slots, 0) == r
  {
    if r == 0 {
      PickNone(Ring(lo, n, q, r, h).slots, 0);
    } else {
      PickFirst(Ring(lo, n, q, r, h).slots, 0, r);
    }
  }

  /** Slot r is granted. */
  lemma {:induction false} RingGrants(lo: int, n: nat, q: nat, r: nat, h: nat)
    requires r < n && h < n
    ensures Take(Ring(lo, n, q, r, h)) ==
            if r + 1 < n then Ring(lo, n, q, r + 1, h + 1) else Ring(lo, n, q + 1, 0, h + 1)
  {
    PickRing(lo, n, q, r, h);
    var p := Take(Ring(lo, n, q, r, h));
    if r + 1 < n {
      assert p.slots == Ring(lo, n, q, r + 1, h + 1).slots;
    } else {
      assert p.slots == Ring(lo, n, q + 1, 0, h + 1).slots;
    }
  }

  lemma {:induction false} GivesBack(lo: int, p: Pool, i: nat)
    requires i < |p.slots| && p.slots[i].now && forall j :: 0 <= j < |p.slots| ==> p.slots[j].port == lo + j
    ensures GiveBack(p, lo + i) == Some(Pool(p.slots[i := p.slots[i].(now := false)], p.taken - 1))
  {
    PositionIs(p.slots, lo + i, i);
  }

  lemma PoolGivesBack(lo: int, hi: int, events: seq<Event>, port: int, p: Pool, p': Pool)
    requires lo <= hi && Trail(lo, hi, events).pool == p && GiveBack(p, port) == Some(p')
    ensures Trail(lo, hi, events + [ReleaseOf(port)]).pool == p'
  {
    TrailNext(lo, hi, events, ReleaseOf(port));
  }

  /** The slot out the longest. */
  function Last(n: nat, r: nat, h: nat): int {
    if h <= r then r - h else r - h + n
  }

  /** The slots out, when the one out the longest comes back. */
  lemma Shrinks(n: nat, r: nat, h: nat, i: nat)
    requires r < n && 0 < h <= n && i < n
    ensures Out(n, r, h - 1, i) <==> Out(n, r, h, i) && i != Last(n, r, h)
  {
  }

  lemma LastIsOut(n: nat, r: nat, h: nat)
    requires r < n && 0 < h <= n
    ensures 0 <= Last(n, r, h) < n && Out(n, r, h, Last(n, r, h))
  {
  }

  lemma {:induction false} RingReleases(lo: int, n: nat, q: nat, r: nat, h: nat)
    requires r < n && 0 < h <= n
    ensures GiveBack(Ring(lo, n, q, r, h), lo + Last(n, r, h)) == Some(Ring(lo, n, q, r, h - 1))
  {
    var i: nat := Last(n, r, h);
    LastIsOut(n, r, h);
    GivesBack(lo, Ring(lo, n, q, r, h), i);
    var slots, slots' := Ring(lo, n, q, r, h).slots, Ring(lo, n, q, r, h - 1).slots;
    forall j | 0 <= j < n ensures slots[i := slots[i].(now := false)][j] == slots'[j] {
      Shrinks(n, r, h, j);
    }
    assert slots[i := slots[i].(now := false)] == slots';
  }

  /** An event that frees no port leaves the release times alone. */
  lemma {:induction false} SameStamps(lo: int, hi: int, events: seq<Event>)
    requires lo <= hi && events != []
    requires var front := events[..|events| - 1];
             forall i :: 0 <= i <= hi - lo && Trail(lo, hi, front).pool.slots[i].now ==>
               events[|events| - 1] != ReleaseOf(lo + i)
    ensures forall i :: 0 <= i <= hi - lo ==>
              ReleasedAt(lo, hi, events, i) == ReleasedAt(lo, hi, events[..|events| - 1], i)
  {
  }

  lemma {:induction false} SameGrants(lo: int, hi: int, events: seq<Event>)
    requires lo <= hi && events != [] && events[|events| - 1].ReleaseOf?
    ensures forall i :: 0 <= i <= hi - lo ==>
              GrantedAt(lo, hi, events, i) == GrantedAt(lo, hi, events[..|events| - 1], i)
  {
  }

  lemma {:induction false} AfterGrant(lo: int, hi: int, events: seq<Event>, q: nat, r: nat, h: nat)
      returns (q': nat, r': nat)
    requires lo <= hi && events != [] && events[|events| - 1] == Reservation && h <= hi - lo
    requires RingAt(lo, hi, events[..|events| - 1], q, r, h)
    ensures RingAt(lo, hi, events, q', r', h + 1)
  {
    var n := hi + 1 - lo;
    RingGrants(lo, n, q, r, h);
    q', r' := if r + 1 < n then q else q + 1, if r + 1 < n then r + 1 else 0;
    GrantKeepsFree(lo, hi, events, r, h, r');
    GrantInTurn(lo, hi, events, q, r, h, r');
  }

  lemma {:induction false} GrantKeepsFree(lo: int, hi: int, events: seq<Event>, r: nat, h: nat, r': nat)
    requires lo <= hi && events != [] && events[|events| - 1] == Reservation && h <= hi - lo
    requires FreeInTurn(lo, hi, events[..|events| - 1], r, h)
    requires r <= hi - lo && r' == if r < hi - lo then r + 1 else 0
    ensures FreeInTurn(lo, hi, events, r', h + 1)
  {
    var n := hi + 1 - lo;
    SameStamps(lo, hi, events);
    forall i, j | 0 <= i < n && 0 <= j < n && !Out(n, r', h + 1, i) && !Out(n, r', h + 1, j) && Sooner(i, j, r')
      ensures ReleasedAt(lo, hi, events, i) <= ReleasedAt(lo, hi, events, j)
    {
      assert !Out(n, r, h, i) && !Out(n, r, h, j) && Sooner(i, j, r);
    }
  }

  lemma {:induction false} GrantInTurn(lo: int, hi: int, events: seq<Event>, q: nat, r: nat, h: nat, r': nat)
    requires lo <= hi && events != [] && events[|events| - 1] == Reservation && h <= hi - lo
    requires RingAt(lo, hi, events[..|events| - 1], q, r, h) && r' == if r < hi - lo then r + 1 else 0
    ensures OutInTurn(lo, hi, events, r', h + 1)
  {
    var n, front := hi + 1 - lo, events[..|events| - 1];
    PickRing(lo, n, q, r, h);
    assert GrantedAt(lo, hi, events, r) == |events|;
    forall i, j | 0 <= i < n && 0 <= j < n && Out(n, r', h + 1, i) && Out(n, r', h + 1, j) && Sooner(i, j, r') && i != j
      ensures GrantedAt(lo, hi, events, i) < GrantedAt(lo, hi, events, j)
    {
      assert i != r;
      assert GrantedAt(lo, hi, events, i) == GrantedAt(lo, hi, front, i);
      if j != r {
        assert GrantedAt(lo, hi, events, j) == GrantedAt(lo, hi, front, j);
        assert Sooner(i, j, r);
      }
    }
  }

  lemma {:induction false} OnlyLastIsOldest(lo: int, hi: int, events: seq<Event>, q: nat, r: nat, h: nat)
    requires lo <= hi && RingAt(lo, hi, events, q, r, h)
    ensures forall i: nat :: i <= hi - lo ==> (OldestOut(lo, hi, events, i) <==> h > 0 && i == Last(hi + 1 - lo, r, h))
  {
    var n := hi + 1 - lo;
    var l := Last(n, r, h);
    if h > 0 {
      forall j | 0 <= j < n && Out(n, r, h, j) && j != l
        ensures GrantedAt(lo, hi, events, l) < GrantedAt(lo, hi, events, j)
      {
        assert Out(n, r, h, l) && Sooner(l, j, r);
      }
    }
  }

  lemma {:induction false} ReleaseInTurn(lo: int, hi: int, events: seq<Event>, q: nat, r: nat, h: nat)
    requires lo <= hi && events != [] && 0 < h
    requires events[|events| - 1] == ReleaseOf(lo + Last(hi + 1 - lo, r, h))
    requires RingAt(lo, hi, events[..|events| - 1], q, r, h)
    ensures FreeInTurn(lo, hi, events, r, h - 1)
    ensures ReleasedAt(lo, hi, events, Last(hi + 1 - lo, r, h)) == |events|
  {
    var n, front := hi + 1 - lo, events[..|events| - 1];
    var l := Last(n, r, h);
    assert Trail(lo, hi, front).pool.slots[l].now;
    assert ReleasedAt(lo, hi, events, l) == |events|;
    forall i, j | 0 <= i < n && 0 <= j < n && !Out(n, r, h - 1, i) && !Out(n, r, h - 1, j) && Sooner(i, j, r)
      ensures ReleasedAt(lo, hi, events, i) <= ReleasedAt(lo, hi, events, j)
    {
      if j != l {
        assert i != l;
        assert ReleasedAt(lo, hi, events, i) == ReleasedAt(lo, hi, front, i);
        assert ReleasedAt(lo, hi, events, j) == ReleasedAt(lo, hi, front, j);
      }
    }
  }

  lemma {:induction false} RingPool(lo: int, n: nat, events: seq<Event>, q: nat, r: nat, h: nat, l: int)
    requires r < n && 0 < h <= n && l == Last(n, r, h)
    requires Trail(lo, lo + n - 1, events).pool == Ring(lo, n, q, r, h)
    ensures Trail(lo, lo + n - 1, events + [ReleaseOf(lo + l)]).pool == Ring(lo, n, q, r, h - 1)
  {
    RingReleases(lo, n, q, r, h);
    PoolGivesBack(lo, lo + n - 1, events, lo + l, Ring(lo, n, q, r, h), Ring(lo, n, q, r, h - 1));
  }

  lemma {:induction false} AfterLast(lo: int, hi: int, events: seq<Event>, q: nat, r: nat, h: nat)
    requires lo <= hi && events != [] && 0 < h
    requires events[|events| - 1] == ReleaseOf(lo + Last(hi + 1 - lo, r, h))
    requires RingAt(lo, hi, events[..|events| - 1], q, r, h)
    ensures RingAt(lo, hi, events, q, r, h - 1)
  {
    var n, front := hi + 1 - lo, events[..|events| - 1];
    assert front + [ReleaseOf(lo + Last(n, r, h))] == events;
    RingPool(lo, n, front, q, r, h, Last(n, r, h));
    ReleaseInTurn(lo, hi, events, q, r, h);
    ReleaseKeepsOut(lo, hi, events, r, h);
  }

  lemma {:induction false} ReleaseKeepsOut(lo: int, hi: int, events: seq<Event>, r: nat, h: nat)
    requires lo <= hi && events != [] && events[|events| - 1].ReleaseOf? && 0 < h && r <= hi - lo
    requires OutInTurn(lo, hi, events[..|events| - 1], r, h)
    ensures OutInTurn(lo, hi, events, r, h - 1)
  {
    SameGrants(lo, hi, events);
  }

  /** A release that raises. */
  lemma {:induction false} NothingReleased(lo: int, hi: int, events: seq<Event>, port: int, q: nat, r: nat, h: nat)
    requires lo <= hi && events != [] && events[|events| - 1] == ReleaseOf(port)
    requires RingAt(lo, hi, events[..|events| - 1], q, r, h)
    requires !(lo <= port <= hi && Out(hi + 1 - lo, r, h, port - lo))
    ensures RingAt(lo, hi, events, q, r, h)
  {
    assert GiveBack(Ring(lo, hi + 1 - lo, q, r, h), port) == None;
    SameStamps(lo, hi, events);
    SameGrants(lo, hi, events);
  }

  lemma {:induction false} AfterRelease(lo: int, hi: int, events: seq<Event>, port: int, q: nat, r: nat, h: nat)
      returns (h': nat)
    requires lo <= hi && events != [] && events[|events| - 1] == ReleaseOf(port)
    requires RingAt(lo, hi, events[..|events| - 1], q, r, h)
    requires InGrantOrder(lo, hi, events[..|events| - 1], port)
    ensures RingAt(lo, hi, events, q, r, h')
  {
    if h > 0 && port == lo + Last(hi + 1 - lo, r, h) {
      AfterLast(lo, hi, events, q, r, h);
      h' := h - 1;
    } else {
      NoneInOrder(lo, hi, events[..|events| - 1], port, q, r, h);
      NothingReleased(lo, hi, events, port, q, r, h);
      h' := h;
    }
  }

  lemma {:induction false} NoneInOrder(lo: int, hi: int, events: seq<Event>, port: int, q: nat, r: nat, h: nat)
    requires lo <= hi && RingAt(lo, hi, events, q, r, h) && InGrantOrder(lo, hi, events, port)
    requires h > 0 ==> port != lo + Last(hi + 1 - lo, r, h)
    ensures !(lo <= port <= hi && Out(hi + 1 - lo, r, h, port - lo))
  {
    if lo <= port <= hi && Out(hi + 1 - lo, r, h, port - lo) {
      InOrderIsLast(lo, hi, events, q, r, h, port - lo);
    }
  }

  lemma {:induction false} InOrderIsLast(lo: int, hi: int, events: seq<Event>, q: nat, r: nat, h: nat, i: nat)
    requires lo <= hi && RingAt(lo, hi, events, q, r, h) && InGrantOrder(lo, hi, events, lo + i)
    requires i <= hi - lo && Out(hi + 1 - lo, r, h, i)
    ensures h > 0 && i == Last(hi + 1 - lo, r, h)
  {
    OnlyLastIsOldest(lo, hi, events, q, r, h);
    assert OldestOut(lo, hi, events, i);
  }

  /** As long as ports come back in grant order, the pool is a ring. */
  lemma {:induction false} FifoRing(lo: int, hi: int, events: seq<Event>) returns (q: nat, r: nat, h: nat)
    requires lo <= hi && Sequential(lo, hi, events) && FifoFrom(lo, hi, events, 0)
    ensures RingAt(lo, hi, events, q, r, h)
  {
    if events == [] {
      q, r, h := 0, 0, 0;
      assert Fresh(lo, hi).slots == Ring(lo, hi + 1 - lo, 0, 0, 0).slots;
    } else {
      q, r, h := FifoRing(lo, hi, events[..|events| - 1]);
      q, r, h := RingNext(lo, hi, events, q, r, h);
    }
  }

  lemma {:induction false} RingNext(lo: int, hi: int, events: seq<Event>, q: nat, r: nat, h: nat)
      returns (q': nat, r': nat, h': nat)
    requires lo <= hi && events != [] && RingAt(lo, hi, events[..|events| - 1], q, r, h)
    requires var front, last := events[..|events| - 1], events[|events| - 1];
             && (last.Reservation? ==> !Full(Trail(lo, hi, front).pool))
             && (last.ReleaseOf? ==> InGrantOrder(lo, hi, front, last.port))
    ensures RingAt(lo, hi, events, q', r', h')
  {
    match events[|events| - 1]
    case Reservation =>
      q', r' := AfterGrant(lo, hi, events, q, r, h);
      h' := h + 1;
    case ReleaseOf(port) =>
      h' := AfterRelease(lo, hi, events, port, q, r, h);
      q', r' := q, r;
  }

  lemma {:induction false} RingGrantsOldest(lo: int, hi: int, events: seq<Event>, q: nat, r: nat, h: nat)
    requires lo <= hi && RingAt(lo, hi, events, q, r, h) && h <= hi - lo
    ensures GrantsOldest(lo, hi, events)
  {
    PickRing(lo, hi + 1 - lo, q, r, h);
    HeadIsOldest(lo, hi, events, r, h);
  }

  lemma {:induction false} HeadIsOldest(lo: int, hi: int, events: seq<Event>, r: nat, h: nat)
    requires lo <= hi && r <= hi - lo && h <= hi - lo && FreeInTurn(lo, hi, events, r, h)
    ensures forall j :: 0 <= j <= hi - lo && !Out(hi + 1 - lo, r, h, j) ==>
              ReleasedAt(lo, hi, events, r) <= ReleasedAt(lo, hi, events, j)
  {
    var n := hi + 1 - lo;
    forall j | 0 <= j < n && !Out(n, r, h, j) ensures ReleasedAt(lo, hi, events, r) <= ReleasedAt(lo, hi, events, j) {
      assert !Out(n, r, h, r) && Sooner(r, j, r);
    }
  }

  /** The promise is kept with any number of ports out, up to the whole range, as long as they
      come back in the order they went out. */
  lemma {:induction false} FifoKeepsOrder(lo: int, hi: int, events: seq<Event>)
    requires lo <= hi && Sequential(lo, hi, events) && FifoFrom(lo, hi, events, 0)
    ensures KeepsOrder(lo, hi, events)
  {
    if events != [] {
      var front := events[..|events| - 1];
      FifoKeepsOrder(lo, hi, front);
      if events[|events| - 1].Reservation? {
        var q, r, h := FifoRing(lo, hi, front);
        RingGrantsOldest(lo, hi, front, q, r, h);
      }
    }
  }

  // ---------- ... and otherwise ----------

  /** Whatever follows, as long as ports come back in grant order from now on: the promise is
      and stays kept. */
  ghost predicate OrderSafe(lo: int, hi: int, events: seq<Event>)
    requires lo <= hi
  {
    forall more: seq<Event> ::
      Sequential(lo, hi, events + more) && FifoFrom(lo, hi, events + more, |events|) ==>
        KeepsOrder(lo, hi, events + more)
  }

  /** ... at all times of a run. */
  ghost predicate AlwaysSafe(lo: int, hi: int, events: seq<Event>)
    requires lo <= hi
  {
    OrderSafe(lo, hi, events) && (events == [] || AlwaysSafe(lo, hi, events[..|events| - 1]))
  }

  /** A ring of which the port of slot i came back early. */
  function Holed(lo: int, n: nat, q: nat, r: nat, h: nat, i: nat): Pool {
    Pool(seq(n, j => Slot(lo + j, if j < r then q + 1 else q, Out(n, r, h, j) && j != i)), h - 1)
  }

  lemma {:induction false} PickHoled(lo: int, n: nat, q: nat, r: nat, h: nat, i: nat)
    requires r < n && h < n && i < n
    ensures Pick(Holed(lo, n, q, r, h, i).slots, 0) == r
  {
    if r == 0 {
      PickNone(Holed(lo, n, q, r, h, i).slots, 0);
    } else {
      PickFirst(Holed(lo, n, q, r, h, i).slots, 0, r);
    }
  }

  lemma {:induction false} HoledGrants(lo: int, n: nat, q: nat, r: nat, h: nat, i: nat)
    requires r < n && h < n && i < n && Out(n, r, h, i)
    ensures Take(Holed(lo, n, q, r, h, i)) ==
            if r + 1 < n then Holed(lo, n, q, r + 1, h + 1, i) else Holed(lo, n, q + 1, 0, h + 1, i)
  {
    PickHoled(lo, n, q, r, h, i);
    var p := Take(Holed(lo, n, q, r, h, i));
    if r + 1 < n {
      assert p.slots == Holed(lo, n, q, r + 1, h + 1, i).slots;
    } else {
      assert p.slots == Holed(lo, n, q + 1, 0, h + 1, i).slots;
    }
  }

  lemma {:induction false} HoleAppears(lo: int, n: nat, q: nat, r: nat, h: nat, i: nat)
    requires r < n && h <= n && i < n && Out(n, r, h, i)
    ensures GiveBack(Ring(lo, n, q, r, h), lo + i) == Some(Holed(lo, n, q, r, h, i))
  {
    GivesBack(lo, Ring(lo, n, q, r, h), i);
    var slots := Ring(lo, n, q, r, h).slots;
    assert slots[i := slots[i].(now := false)] == Holed(lo, n, q, r, h, i).slots;
  }

  lemma {:induction false} HoledReleases(lo: int, n: nat, q: nat, r: nat, h: nat, i: nat, l: nat)
    requires r < n && 0 < h <= n && i < n && l == Last(n, r, h) && i != l
    ensures l < n && GiveBack(Holed(lo, n, q, r, h, i), lo + l) == Some(Holed(lo, n, q, r, h - 1, i))
  {
    LastIsOut(n, r, h);
    GivesBack(lo, Holed(lo, n, q, r, h, i), l);
    HoledWithout(lo, n, q, r, h, i, l);
  }

  lemma {:induction false} HoledWithout(lo: int, n: nat, q: nat, r: nat, h: nat, i: nat, l: nat)
    requires r < n && 0 < h <= n && i < n && l < n && l == Last(n, r, h) && i != l
    ensures var slots := Holed(lo, n, q, r, h, i).slots;
            slots[l := slots[l].(now := false)] == Holed(lo, n, q, r, h - 1, i).slots
  {
    var slots, slots' := Holed(lo, n, q, r, h, i).slots, Holed(lo, n, q, r, h - 1, i).slots;
    forall j | 0 <= j < n ensures slots[l := slots[l].(now := false)][j] == slots'[j] {
      Shrinks(n, r, h, j);
    }
  }

  /** A run from the end of its first n events in grant order, whose next grant is in question. */
  predicate Follows(lo: int, hi: int, events: seq<Event>, n: nat)
    requires lo <= hi
  {
    Sequential(lo, hi, events) && FifoFrom(lo, hi, events, n)
  }

  lemma {:induction false} GrantStamps(lo: int, hi: int, events: seq<Event>)
    requires lo <= hi
    ensures forall i :: 0 <= i <= hi - lo ==>
              ReleasedAt(lo, hi, events + [Reservation], i) == ReleasedAt(lo, hi, events, i)
  {
    assert (events + [Reservation])[..|events|] == events;
  }

  lemma {:induction false} GrantFollows(lo: int, hi: int, events: seq<Event>, n: nat)
    requires lo <= hi && Follows(lo, hi, events, n) && !Full(Trail(lo, hi, events).pool)
    ensures Follows(lo, hi, events + [Reservation], n)
    ensures Trail(lo, hi, events + [Reservation]).pool == Take(Trail(lo, hi, events).pool)
    ensures KeepsOrder(lo, hi, events + [Reservation]) ==> GrantsOldest(lo, hi, events)
  {
    assert (events + [Reservation])[..|events|] == events;
  }

  /** The port granted the longest ago came back after that of slot i, which was early. */
  predicate HoleAt(lo: int, hi: int, events: seq<Event>, q: nat, r: nat, h: nat, i: nat)
    requires lo <= hi
  {
    && r <= hi - lo && 0 < h <= hi - lo && i <= hi - lo && Out(hi + 1 - lo, r, h, i)
    && Trail(lo, hi, events).pool == Holed(lo, hi + 1 - lo, q, r, h, i)
    && ReleasedAt(lo, hi, events, i) < ReleasedAt(lo, hi, events, Last(hi + 1 - lo, r, h + 1))
  }

  /** Grants go on around the ring up to it, and pass the older one of slot i over. */
  lemma {:induction false} HoleBreaks(lo: int, hi: int, events: seq<Event>, m: nat, q: nat, r: nat, h: nat, i: nat)
      returns (all: seq<Event>)
    requires lo <= hi && Follows(lo, hi, events, m) && HoleAt(lo, hi, events, q, r, h, i)
    ensures events <= all && Follows(lo, hi, all, m) && !KeepsOrder(lo, hi, all)
    decreases hi - lo - h
  {
    all := events + [Reservation];
    GrantFollows(lo, hi, events, m);
    if h == hi - lo {
      PassesOver(lo, hi, events, q, r, h, i);
    } else {
      var q', r' := HoleMoves(lo, hi, events, q, r, h, i);
      all := HoleBreaks(lo, hi, all, m, q', r', h + 1, i);
    }
  }

  lemma {:induction false} PassesOver(lo: int, hi: int, events: seq<Event>, q: nat, r: nat, h: nat, i: nat)
    requires lo <= hi && HoleAt(lo, hi, events, q, r, h, i) && h == hi - lo
    ensures !GrantsOldest(lo, hi, events)
  {
    PickHoled(lo, hi + 1 - lo, q, r, h, i);
    assert !Trail(lo, hi, events).pool.slots[i].now;
  }

  lemma {:induction false} HolePool(lo: int, hi: int, events: seq<Event>, q: nat, r: nat, h: nat, i: nat)
    requires lo <= hi && r <= hi - lo && h < hi - lo && i <= hi - lo && Out(hi + 1 - lo, r, h, i)
    requires Trail(lo, hi, events).pool == Holed(lo, hi + 1 - lo, q, r, h, i)
    ensures var n := hi + 1 - lo;
            Trail(lo, hi, events + [Reservation]).pool ==
            if r + 1 < n then Holed(lo, n, q, r + 1, h + 1, i) else Holed(lo, n, q + 1, 0, h + 1, i)
  {
    HoledGrants(lo, hi + 1 - lo, q, r, h, i);
    TrailNext(lo, hi, events, Reservation);
  }

  lemma MovesOn(n: nat, r: nat, h: nat, i: nat)
    requires r < n && 0 < h && h + 1 < n && i < n && Out(n, r, h, i)
    ensures var r' := if r + 1 < n then r + 1 else 0;
            Out(n, r', h + 1, i) && Last(n, r', h + 2) == Last(n, r, h + 1) && 0 <= Last(n, r, h + 1) < n
  {
  }

  lemma {:induction false} HoleMoves(lo: int, hi: int, events: seq<Event>, q: nat, r: nat, h: nat, i: nat)
      returns (q': nat, r': nat)
    requires lo <= hi && HoleAt(lo, hi, events, q, r, h, i) && h < hi - lo
    ensures HoleAt(lo, hi, events + [Reservation], q', r', h + 1, i)
  {
    var n := hi + 1 - lo;
    q', r' := if r + 1 < n then q else q + 1, if r + 1 < n then r + 1 else 0;
    HolePool(lo, hi, events, q, r, h, i);
    GrantStamps(lo, hi, events);
    MovesOn(n, r, h, i);
  }

  /** From a ring, the port of slot i comes back, though that of slot l has been out longer. */
  lemma {:induction false} EarlyRelease(lo: int, hi: int, events: seq<Event>, q: nat, r: nat, h: nat, i: nat, l: nat)
    requires lo <= hi && RingAt(lo, hi, events, q, r, h) && 0 < h && l == Last(hi + 1 - lo, r, h)
    requires i <= hi - lo && Out(hi + 1 - lo, r, h, i) && i != l
    requires Trail(lo, hi, events + [ReleaseOf(lo + i)]).pool == Holed(lo, hi + 1 - lo, q, r, h, i)
    ensures OldestOut(lo, hi, events + [ReleaseOf(lo + i)], l)
  {
    OnlyLastIsOldest(lo, hi, events, q, r, h);
    LastIsOut(hi + 1 - lo, r, h);
    StillOldest(lo, hi, events, lo + i, l);
  }

  lemma {:induction false} EarlyPool(lo: int, n: nat, events: seq<Event>, q: nat, r: nat, h: nat, i: nat)
    requires r < n && h <= n && i < n && Out(n, r, h, i)
    requires Trail(lo, lo + n - 1, events).pool == Ring(lo, n, q, r, h)
    ensures Trail(lo, lo + n - 1, events + [ReleaseOf(lo + i)]).pool == Holed(lo, n, q, r, h, i)
  {
    HoleAppears(lo, n, q, r, h, i);
    PoolGivesBack(lo, lo + n - 1, events, lo + i, Ring(lo, n, q, r, h), Holed(lo, n, q, r, h, i));
  }

  lemma {:induction false} ReleaseStamps(lo: int, hi: int, events: seq<Event>, i: nat)
    requires lo <= hi && i <= hi - lo && Trail(lo, hi, events).pool.slots[i].now
    ensures var all := events + [ReleaseOf(lo + i)];
            && ReleasedAt(lo, hi, all, i) == |all|
            && (Sequential(lo, hi, events) ==> Sequential(lo, hi, all))
            && forall j :: 0 <= j <= hi - lo && j != i ==> ReleasedAt(lo, hi, all, j) == ReleasedAt(lo, hi, events, j)
  {
    assert (events + [ReleaseOf(lo + i)])[..|events|] == events;
  }

  lemma {:induction false} StillOldest(lo: int, hi: int, events: seq<Event>, port: int, l: nat)
    requires lo <= hi && OldestOut(lo, hi, events, l)
    requires Trail(lo, hi, events + [ReleaseOf(port)]).pool.slots[l].now
    ensures OldestOut(lo, hi, events + [ReleaseOf(port)], l)
  {
    assert (events + [ReleaseOf(port)])[..|events|] == events;
    SameGrants(lo, hi, events + [ReleaseOf(port)]);
  }

  /** ... and that one comes back next. */
  lemma {:induction false} LateRelease(lo: int, hi: int, early: seq<Event>, q: nat, r: nat, h: nat, i: nat, l: nat)
    requires lo <= hi && r <= hi - lo && 0 < h <= hi + 1 - lo && l == Last(hi + 1 - lo, r, h) && l <= hi - lo
    requires i <= hi - lo && Out(hi + 1 - lo, r, h, i) && i != l
    requires Trail(lo, hi, early + [ReleaseOf(lo + l)]).pool == Holed(lo, hi + 1 - lo, q, r, h - 1, i)
    requires var both := early + [ReleaseOf(lo + l)]; ReleasedAt(lo, hi, both, i) < ReleasedAt(lo, hi, both, l)
    ensures h >= 2 && HoleAt(lo, hi, early + [ReleaseOf(lo + l)], q, r, h - 1, i)
  {
    LastIsOut(hi + 1 - lo, r, h);
    Shrinks(hi + 1 - lo, r, h, i);
  }

  lemma {:induction false} LatePool(lo: int, n: nat, early: seq<Event>, q: nat, r: nat, h: nat, i: nat, l: nat)
    requires r < n && 0 < h <= n && l == Last(n, r, h) && i < n && i != l
    requires Trail(lo, lo + n - 1, early).pool == Holed(lo, n, q, r, h, i)
    ensures Trail(lo, lo + n - 1, early + [ReleaseOf(lo + l)]).pool == Holed(lo, n, q, r, h - 1, i)
  {
    HoledReleases(lo, n, q, r, h, i, l);
    PoolGivesBack(lo, lo + n - 1, early, lo + l, Holed(lo, n, q, r, h, i), Holed(lo, n, q, r, h - 1, i));
  }

  lemma {:induction false} OldestFollows(lo: int, hi: int, events: seq<Event>, l: nat)
    requires lo <= hi && l <= hi - lo && Sequential(lo, hi, events) && OldestOut(lo, hi, events, l)
    ensures Follows(lo, hi, events + [ReleaseOf(lo + l)], |events|)
  {
    assert (events + [ReleaseOf(lo + l)])[..|events|] == events;
  }

  /** The port of slot i has just come back, though that of slot l, still out, went out before. */
  ghost predicate EarlyAt(lo: int, hi: int, early: seq<Event>, q: nat, r: nat, h: nat, i: nat, l: nat)
    requires lo <= hi
  {
    && r <= hi - lo && 0 < h <= hi + 1 - lo && l == Last(hi + 1 - lo, r, h) && l <= hi - lo
    && i <= hi - lo && Out(hi + 1 - lo, r, h, i) && i != l
    && Trail(lo, hi, early).pool == Holed(lo, hi + 1 - lo, q, r, h, i)
    && ReleasedAt(lo, hi, early, i) == |early| && OldestOut(lo, hi, early, l) && Sequential(lo, hi, early)
  }

  lemma {:induction false} ComesEarly(lo: int, hi: int, events: seq<Event>, q: nat, r: nat, h: nat, i: nat, l: nat)
    requires lo <= hi && Sequential(lo, hi, events) && RingAt(lo, hi, events, q, r, h)
    requires 0 < h && l == Last(hi + 1 - lo, r, h) && i <= hi - lo && Out(hi + 1 - lo, r, h, i) && i != l
    ensures EarlyAt(lo, hi, events + [ReleaseOf(lo + i)], q, r, h, i, l)
  {
    LastIsOut(hi + 1 - lo, r, h);
    EarlyPool(lo, hi + 1 - lo, events, q, r, h, i);
    ReleaseStamps(lo, hi, events, i);
    EarlyRelease(lo, hi, events, q, r, h, i, l);
  }

  lemma {:induction false} ComesLate(lo: int, hi: int, early: seq<Event>, q: nat, r: nat, h: nat, i: nat, l: nat)
    requires lo <= hi && EarlyAt(lo, hi, early, q, r, h, i, l)
    ensures h >= 2 && HoleAt(lo, hi, early + [ReleaseOf(lo + l)], q, r, h - 1, i)
  {
    var both := early + [ReleaseOf(lo + l)];
    assert Trail(lo, hi, both).pool == Holed(lo, hi + 1 - lo, q, r, h - 1, i) by {
      LatePool(lo, hi + 1 - lo, early, q, r, h, i, l);
    }
    assert ReleasedAt(lo, hi, both, i) < ReleasedAt(lo, hi, both, l) by {
      ReleaseStamps(lo, hi, early, l);
    }
    LateRelease(lo, hi, early, q, r, h, i, l);
  }

  lemma {:induction false} EarlyReleaseBreaks(lo: int, hi: int, events: seq<Event>, q: nat, r: nat, h: nat, i: nat)
    requires lo <= hi && Sequential(lo, hi, events) && RingAt(lo, hi, events, q, r, h)
    requires i <= hi - lo && Out(hi + 1 - lo, r, h, i) && i != Last(hi + 1 - lo, r, h)
    ensures !OrderSafe(lo, hi, events + [ReleaseOf(lo + i)])
  {
    LastIsOut(hi + 1 - lo, r, h);
    var early, l := events + [ReleaseOf(lo + i)], Last(hi + 1 - lo, r, h);
    ComesEarly(lo, hi, events, q, r, h, i, l);
    ComesLate(lo, hi, early, q, r, h, i, l);
    OldestFollows(lo, hi, early, l);
    HoleIsUnsafe(lo, hi, early, ReleaseOf(lo + l), q, r, h - 1, i);
  }

  lemma {:induction false} HoleIsUnsafe(lo: int, hi: int, events: seq<Event>, e: Event, q: nat, r: nat, h: nat, i: nat)
    requires lo <= hi && Follows(lo, hi, events + [e], |events|) && HoleAt(lo, hi, events + [e], q, r, h, i)
    ensures !OrderSafe(lo, hi, events)
  {
    var all := HoleBreaks(lo, hi, events + [e], |events|, q, r, h, i);
    assert events + all[|events|..] == all;
  }

  lemma {:induction false} FifoJoins(lo: int, hi: int, events: seq<Event>, all: seq<Event>)
    requires lo <= hi && events <= all && FifoFrom(lo, hi, events, 0) && FifoFrom(lo, hi, all, |events|)
    ensures FifoFrom(lo, hi, all, 0)
  {
    if |events| < |all| {
      FifoJoins(lo, hi, events, all[..|all| - 1]);
    } else {
      assert events == all;
    }
  }

  /** The reuse promise of one run: at all of its times the order is kept, and stays so whatever
      follows in grant order, exactly if each of its ports came back in the order they were
      granted. One release out of that order is enough to break a later grant. */
  lemma {:induction false} SafeWhenFifo(lo: int, hi: int, events: seq<Event>)
    requires lo <= hi && Sequential(lo, hi, events)
    ensures AlwaysSafe(lo, hi, events) <==> FifoFrom(lo, hi, events, 0)
  {
    if FifoFrom(lo, hi, events, 0) {
      forall more: seq<Event> | Sequential(lo, hi, events + more) && FifoFrom(lo, hi, events + more, |events|)
        ensures KeepsOrder(lo, hi, events + more)
      {
        FifoJoins(lo, hi, events, events + more);
        FifoKeepsOrder(lo, hi, events + more);
      }
    }
    if events != [] {
      var front := events[..|events| - 1];
      SafeWhenFifo(lo, hi, front);
      if FifoFrom(lo, hi, front, 0) && !FifoFrom(lo, hi, events, 0) {
        LastReleaseBreaks(lo, hi, events);
      }
    }
  }

  lemma {:induction false} LastReleaseBreaks(lo: int, hi: int, events: seq<Event>)
    requires lo <= hi && events != [] && Sequential(lo, hi, events)
    requires FifoFrom(lo, hi, events[..|events| - 1], 0) && !FifoFrom(lo, hi, events, 0)
    ensures !OrderSafe(lo, hi, events)
  {
    var front := events[..|events| - 1];
    var q, r, h := FifoRing(lo, hi, front);
    var i := OutOfOrder(lo, hi, front, events[|events| - 1].port);
    OnlyLastIsOldest(lo, hi, front, q, r, h);
    EarlyReleaseBreaks(lo, hi, front, q, r, h, i);
    assert front + [ReleaseOf(lo + i)] == events;
  }

  lemma OutOfOrder(lo: int, hi: int, events: seq<Event>, port: int) returns (i: nat)
    requires lo <= hi && !InGrantOrder(lo, hi, events, port)
    ensures i <= hi - lo && lo + i == port
    ensures Trail(lo, hi, events).pool.slots[i].now && !OldestOut(lo, hi, events, i)
  {
    i :| i < |Trail(lo, hi, events).pool.slots| && lo + i == port &&
      Trail(lo, hi, events).pool.slots[i].now && !OldestOut(lo, hi, events, i);
  }

  // ---------- by the number of ports out ----------

  /** At no time are more than k reservations outstanding. */
  predicate HoldsAtMost(lo: int, hi: int, events: seq<Event>, k: nat)
    requires lo <= hi
  {
    && Trail(lo, hi, events).pool.taken <= k
    && (events == [] || HoldsAtMost(lo, hi, events[..|events| - 1], k))
  }

  /** The promise: in every run in which at most k ports are out at a time and a full pool is
      not asked, each grant is of the free port released the longest ago. */
  ghost predicate ReusesOldest(lo: int, hi: int, k: nat)
    requires lo <= hi
  {
    forall events: seq<Event> ::
      Sequential(lo, hi, events) && HoldsAtMost(lo, hi, events, k) ==> KeepsOrder(lo, hi, events)
  }

  /** It holds exactly as long as no two ports are ever out at once, or there is only one. */
  lemma {:induction false} ReusesOldestWhen(lo: int, hi: int, k: nat)
    requires lo <= hi
    ensures ReusesOldest(lo, hi, k) <==> k <= 1 || lo == hi
  {
    if k <= 1 || lo == hi {
      forall events: seq<Event> | Sequential(lo, hi, events) && HoldsAtMost(lo, hi, events, k)
        ensures KeepsOrder(lo, hi, events)
      {
        HoldsAtMostOne(lo, hi, events, k);
        OneOutIsFifo(lo, hi, events);
        FifoKeepsOrder(lo, hi, events);
      }
    } else {
      PassedOver(lo, hi + 1 - lo, k);
    }
  }

  lemma {:induction false} HoldsAtMostOne(lo: int, hi: int, events: seq<Event>, k: nat)
    requires lo <= hi && Sequential(lo, hi, events) && HoldsAtMost(lo, hi, events, k)
    requires k <= 1 || lo == hi
    ensures HoldsAtMost(lo, hi, events, 1)
  {
    CapacityShrinksToOne(lo, hi, events);
    if events != [] {
      HoldsAtMostOne(lo, hi, events[..|events| - 1], k);
    }
  }

  /** A single port that is out is the one granted the longest ago. */
  lemma {:induction false} OneOutIsFifo(lo: int, hi: int, events: seq<Event>)
    requires lo <= hi && Sequential(lo, hi, events) && HoldsAtMost(lo, hi, events, 1)
    ensures FifoFrom(lo, hi, events, 0)
  {
    if events != [] {
      var front := events[..|events| - 1];
      OneOutIsFifo(lo, hi, front);
      var q, r, h := FifoRing(lo, hi, front);
      OnlyLastIsOldest(lo, hi, front, q, r, h);
    }
  }

  // ---------- two ports at a time: the first one stays out ----------

  /** One port is taken and kept, and the next i ports are taken and given back in turn. */
  function Parking(lo: int, i: nat): seq<Event> {
    if i == 0 then [Reservation] else Parking(lo, i - 1) + [Reservation] + [ReleaseOf(lo + i)]
  }

  function Parked(lo: int, n: nat, i: nat): Pool {
    Pool(seq(n, j => Slot(lo + j, if j <= i then 1 else 0, j == 0)), 1)
  }

  predicate ParkedAfter(lo: int, n: nat, i: nat, events: seq<Event>)
    requires n >= 2
  {
    var hi := lo + n - 1;
    Trail(lo, hi, events).pool == Parked(lo, n, i) && Sequential(lo, hi, events) && HoldsAtMost(lo, hi, events, 2)
  }

  lemma {:induction false} PoolAfterParking(lo: int, n: nat, i: nat)
    requires i < n && n >= 2
    ensures ParkedAfter(lo, n, i, Parking(lo, i))
  {
    if i == 0 {
      FirstParked(lo, n);
    } else {
      PoolAfterParking(lo, n, i - 1);
      ParkNext(lo, n, i, Parking(lo, i - 1));
    }
  }

  lemma {:induction false} ParkNext(lo: int, n: nat, i: nat, before: seq<Event>)
    requires 0 < i < n && ParkedAfter(lo, n, i - 1, before)
    ensures ParkedAfter(lo, n, i, before + [Reservation] + [ReleaseOf(lo + i)])
  {
    ParkOne(lo, n, i);
    OneMore(lo, lo + n - 1, before, Reservation, 2);
    OneMore(lo, lo + n - 1, before + [Reservation], ReleaseOf(lo + i), 2);
  }

  lemma {:induction false} FirstParked(lo: int, n: nat)
    requires n >= 2
    ensures ParkedAfter(lo, n, 0, Parking(lo, 0))
  {
    var hi := lo + n - 1;
    PickNone(Fresh(lo, hi).slots, 0);
    assert Take(Fresh(lo, hi)).slots == Parked(lo, n, 0).slots;
    OneMore(lo, hi, [], Reservation, 2);
    assert [] + [Reservation] == Parking(lo, 0);
  }

  lemma {:induction false} ParkOne(lo: int, n: nat, i: nat)
    requires 0 < i < n
    ensures var p := Take(Parked(lo, n, i - 1)); p.taken == 2 && GiveBack(p, lo + i) == Some(Parked(lo, n, i))
  {
    PickFirst(Parked(lo, n, i - 1).slots, 0, i);
    var p := Take(Parked(lo, n, i - 1));
    PositionIs(p.slots, lo + i, i);
    assert p.slots[i := p.slots[i].(now := false)] == Parked(lo, n, i).slots;
  }

  lemma {:induction false} OneMore(lo: int, hi: int, events: seq<Event>, e: Event, k: nat)
    requires lo <= hi && Sequential(lo, hi, events) && HoldsAtMost(lo, hi, events, k)
    requires e.Reservation? ==> !Full(Trail(lo, hi, events).pool)
    requires Apply(Trail(lo, hi, events), e).pool.taken <= k
    ensures Trail(lo, hi, events + [e]) == Apply(Trail(lo, hi, events), e)
    ensures Sequential(lo, hi, events + [e]) && HoldsAtMost(lo, hi, events + [e], k)
  {
    TrailNext(lo, hi, events, e);
    assert (events + [e])[..|events|] == events;
  }

  /** When all other ports have been used once, the one still out is granted again, although
      all others are free. */
  lemma {:induction false} PassedOver(lo: int, n: nat, k: nat)
    requires n >= 2 && k >= 2
    ensures !ReusesOldest(lo, lo + n - 1, k)
  {
    var before := Parking(lo, n - 1);
    PoolAfterParking(lo, n, n - 1);
    PickNone(Parked(lo, n, n - 1).slots, 0);
    OneMore(lo, lo + n - 1, before, Reservation, 2);
    HoldsMore(lo, lo + n - 1, before + [Reservation], 2, k);
    OrderIsBroken(lo, lo + n - 1, before);
  }

  lemma {:induction false} OrderIsBroken(lo: int, hi: int, before: seq<Event>)
    requires lo <= hi
    requires var slots := Trail(lo, hi, before).pool.slots; slots[Pick(slots, 0)].now
    ensures !KeepsOrder(lo, hi, before + [Reservation])
  {
    assert (before + [Reservation])[..|before|] == before;
    assert !GrantsOldest(lo, hi, before);
  }

  lemma {:induction false} HoldsMore(lo: int, hi: int, events: seq<Event>, k: nat, k': nat)
    requires lo <= hi && HoldsAtMost(lo, hi, events, k) && k <= k'
    ensures HoldsAtMost(lo, hi, events, k')
  {
    if events != [] {
      HoldsMore(lo, hi, events[..|events| - 1], k, k');
    }
  }
}
