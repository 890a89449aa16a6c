/** Requests of many threads at the daemon's pool. reserve tests for exhaustion before it takes
    the lock, so that a request is two steps, between which other threads may move. */
module PortRace {
  import opened Text
  import opened PortPool

  /** A thread makes the test of reserve; a thread past the test takes the lock and a port; a
      port is given back, all under the lock. */
  datatype Move = Ask(thread: nat) | Enter(thread: nat) | Return(port: int)

  /** The locked sections so far, in their order, and the threads past the test. */
  datatype Race = Race(events: seq<Event>, past: set<nat>)

  function PoolOf(lo: int, hi: int, r: Race): Pool
    requires lo <= hi
  {
    Trail(lo, hi, r.events).pool
  }

  /** None if the thread is not where the move starts. A refused thread has its exception. */
  function RaceStep(lo: int, hi: int, r: Race, m: Move): Option<Race>
    requires lo <= hi
  {
    match m
    case Ask(t) =>
      if t in r.past then None
      else if Full(PoolOf(lo, hi, r)) then Some(r)
      else Some(r.(past := r.past + {t}))
    case Enter(t) =>
      if t in r.past then Some(Race(r.events + [Reservation], r.past - {t})) else None
    case Return(port) => Some(r.(events := r.events + [ReleaseOf(port)]))
  }

  function RaceRun(lo: int, hi: int, moves: seq<Move>): Option<Race>
    requires lo <= hi
  {
    if moves == [] then Some(Race([], {}))
    else
      match RaceRun(lo, hi, moves[..|moves| - 1])
      case None => None
      case Some(r) => RaceStep(lo, hi, r, moves[|moves| - 1])
  }

  /** The moves are a run in which no more than k threads are past the test at a time. */
  predicate AtMostPast(lo: int, hi: int, moves: seq<Move>, k: nat)
    requires lo <= hi
  {
    moves == [] ||
    (var r := RaceRun(lo, hi, moves);
     AtMostPast(lo, hi, moves[..|moves| - 1], k) && r.Some? && |r.value.past| <= k)
  }

  lemma RaceNext(lo: int, hi: int, moves: seq<Move>, m: Move)
    requires lo <= hi && RaceRun(lo, hi, moves).Some?
    ensures RaceRun(lo, hi, moves + [m]) == RaceStep(lo, hi, RaceRun(lo, hi, moves).value, m)
    ensures RaceRun(lo, hi, moves + [m]).Some? ==>
              forall k :: AtMostPast(lo, hi, moves, k) && |RaceRun(lo, hi, moves + [m]).value.past| <= k ==>
                AtMostPast(lo, hi, moves + [m], k)
  {
    assert (moves + [m])[..|moves|] == moves;
  }

  // ---------- the count of outstanding reservations ----------

  /** The count never passes the size of the range, so that a pool with all ports taken refuses. */
  predicate CountFits(lo: int, hi: int, events: seq<Event>)
    requires lo <= hi
  {
    && Trail(lo, hi, events).pool.taken <= hi + 1 - lo
    && (events == [] || CountFits(lo, hi, events[..|events| - 1]))
  }

  /** For a given order of the locked sections: exactly if no reservation found the pool full
      when it had the lock. */
  lemma {:induction false} CountFitsWhen(lo: int, hi: int, events: seq<Event>)
    requires lo <= hi
    ensures CountFits(lo, hi, events) <==> Sequential(lo, hi, events)
  {
    if events != [] {
      CountFitsWhen(lo, hi, events[..|events| - 1]);
    }
  }

  /** For all runs: exactly if no two threads are ever past the test at once. */
  lemma {:induction false} RacesFitWhen(lo: int, hi: int, k: nat)
    requires lo <= hi
    ensures (forall moves :: AtMostPast(lo, hi, moves, k) ==> CountFits(lo, hi, RaceRun(lo, hi, moves).value.events))
            <==> k <= 1
  {
    if k <= 1 {
      forall moves | AtMostPast(lo, hi, moves, k)
        ensures CountFits(lo, hi, RaceRun(lo, hi, moves).value.events)
      {
        OnePastFits(lo, hi, moves, k);
      }
    } else {
      var moves, events := TwoPastBreak(lo, hi + 1 - lo);
      MorePast(lo, hi, moves, 2, k);
      assert RaceRun(lo, hi, moves).value.events == events;
    }
  }

  lemma {:induction false} MorePast(lo: int, hi: int, moves: seq<Move>, k: nat, k': nat)
    requires lo <= hi && AtMostPast(lo, hi, moves, k) && k <= k'
    ensures AtMostPast(lo, hi, moves, k')
  {
    if moves != [] {
      MorePast(lo, hi, moves[..|moves| - 1], k, k');
    }
  }

  lemma {:induction false} OnePastFits(lo: int, hi: int, moves: seq<Move>, k: nat)
    requires lo <= hi && AtMostPast(lo, hi, moves, k) && k <= 1
    ensures var r := RaceRun(lo, hi, moves).value;
            CountFits(lo, hi, r.events) && PoolOf(lo, hi, r).taken + |r.past| <= hi + 1 - lo
  {
    if moves != [] {
      var front := moves[..|moves| - 1];
      OnePastFits(lo, hi, front, k);
      OneStepFits(lo, hi, RaceRun(lo, hi, front).value, moves[|moves| - 1]);
    }
  }

  lemma {:induction false} OneStepFits(lo: int, hi: int, r: Race, m: Move)
    requires lo <= hi && RaceStep(lo, hi, r, m).Some? && |RaceStep(lo, hi, r, m).value.past| <= 1
    requires CountFits(lo, hi, r.events) && PoolOf(lo, hi, r).taken + |r.past| <= hi + 1 - lo
    ensures var r' := RaceStep(lo, hi, r, m).value;
            CountFits(lo, hi, r'.events) && PoolOf(lo, hi, r').taken + |r'.past| <= hi + 1 - lo
  {
    match m
    case Ask(t) =>
    case Enter(t) =>
      TrailNext(lo, hi, r.events, Reservation);
      assert (r.events + [Reservation])[..|r.events|] == r.events;
    case Return(port) =>
      TrailNext(lo, hi, r.events, ReleaseOf(port));
      assert (r.events + [ReleaseOf(port)])[..|r.events|] == r.events;
  }

  // ---------- two threads past the test ----------

  /** A run with at most two threads past the test that leads to the given locked sections,
      with no thread past the test. */
  predicate Leads(lo: int, hi: int, moves: seq<Move>, events: seq<Event>)
    requires lo <= hi
  {
    AtMostPast(lo, hi, moves, 2) && RaceRun(lo, hi, moves) == Some(Race(events, {}))
  }

  /** One thread alone takes k ports. */
  lemma {:induction false} OneThreadFills(lo: int, n: nat, k: nat) returns (moves: seq<Move>)
    requires k <= n && n > 0
    ensures Leads(lo, lo + n - 1, moves, Requests(k))
  {
    moves := [];
    if k > 0 {
      moves := OneThreadFills(lo, n, k - 1);
      assert !Full(Trail(lo, lo + n - 1, Requests(k - 1)).pool) by {
        FillsInOrder(lo, n, k - 1);
      }
      OneEnters(lo, lo + n - 1, moves, Requests(k - 1));
      moves := moves + [Ask(0)] + [Enter(0)];
    }
  }

  lemma {:induction false} OneEnters(lo: int, hi: int, moves: seq<Move>, events: seq<Event>)
    requires lo <= hi && Leads(lo, hi, moves, events) && !Full(Trail(lo, hi, events).pool)
    ensures Leads(lo, hi, moves + [Ask(0)] + [Enter(0)], events + [Reservation])
  {
    RaceNext(lo, hi, moves, Ask(0));
    RaceNext(lo, hi, moves + [Ask(0)], Enter(0));
  }

  lemma {:induction false} BothEnter(lo: int, hi: int, moves: seq<Move>, events: seq<Event>)
    requires lo <= hi && Leads(lo, hi, moves, events) && !Full(Trail(lo, hi, events).pool)
    ensures Leads(lo, hi, moves + [Ask(0)] + [Ask(1)] + [Enter(0)] + [Enter(1)], events + [Reservation] + [Reservation])
  {
    RaceNext(lo, hi, moves, Ask(0));
    RaceNext(lo, hi, moves + [Ask(0)], Ask(1));
    var asked := moves + [Ask(0)] + [Ask(1)];
    var none: set<nat> := {};
    assert none + {0} + {1} == {0, 1} && {0, 1} - {0} == {1} && {1} - {1} == none;
    RaceNext(lo, hi, asked, Enter(0));
    RaceNext(lo, hi, asked + [Enter(0)], Enter(1));
  }

  /** All ports but one are taken; two threads make the test, pass it, and both take one. */
  lemma {:induction false} TwoPastBreak(lo: int, n: nat) returns (moves: seq<Move>, events: seq<Event>)
    requires n > 0
    ensures Leads(lo, lo + n - 1, moves, events) && !CountFits(lo, lo + n - 1, events)
  {
    moves := OneThreadFills(lo, n, n - 1);
    events := Requests(n - 1);
    assert Trail(lo, lo + n - 1, events).pool.taken == n - 1 by {
      FillsInOrder(lo, n, n - 1);
    }
    BreakFrom(lo, lo + n - 1, moves, events);
    moves := moves + [Ask(0)] + [Ask(1)] + [Enter(0)] + [Enter(1)];
    events := events + [Reservation] + [Reservation];
  }

  lemma {:induction false} BreakFrom(lo: int, hi: int, moves: seq<Move>, events: seq<Event>)
    requires lo <= hi && Leads(lo, hi, moves, events) && Trail(lo, hi, events).pool.taken == hi - lo
    ensures Leads(lo, hi, moves + [Ask(0)] + [Ask(1)] + [Enter(0)] + [Enter(1)], events + [Reservation] + [Reservation])
    ensures !CountFits(lo, hi, events + [Reservation] + [Reservation])
  {
    BothEnter(lo, hi, moves, events);
    TrailNext(lo, hi, events, Reservation);
    TrailNext(lo, hi, events + [Reservation], Reservation);
  }

  /** The shortest such run: with one port, both threads get it, and the pool no longer refuses. */
  lemma {:induction false} RaceBreaksTheCount(lo: int)
    ensures RaceRun(lo, lo, [Ask(0), Ask(1), Enter(0), Enter(1)]) == Some(Race([Reservation, Reservation], {}))
    ensures Grants(lo, lo, [Reservation, Reservation]) == [lo, lo]
    ensures !Full(Trail(lo, lo, [Reservation, Reservation]).pool)
  {
    BothEnter(lo, lo, [], []);
    assert [] + [Ask(0)] + [Ask(1)] + [Enter(0)] + [Enter(1)] == [Ask(0), Ask(1), Enter(0), Enter(1)];
    assert [] + [Reservation] + [Reservation] == [Reservation, Reservation] == Requests(2);
    GrantsInOrder(lo, 1, 2);
    assert InOrder(lo, 1, 2) == [lo, lo];
  }

  /** A port given back is free in the pool, or the pool is as before if it was not reserved; no
      thread is past the test that was not before. */
  lemma {:induction false} ReturnReachesPool(lo: int, hi: int, moves: seq<Move>, port: int)
    requires lo <= hi && RaceRun(lo, hi, moves).Some?
    ensures var r, r' := RaceRun(lo, hi, moves).value, RaceRun(lo, hi, moves + [Return(port)]);
            && r'.Some? && r'.value.past == r.past
            && var back := GiveBack(PoolOf(lo, hi, r), port);
               PoolOf(lo, hi, r'.value) == if back.Some? then back.value else PoolOf(lo, hi, r)
  {
    RaceNext(lo, hi, moves, Return(port));
    TrailNext(lo, hi, RaceRun(lo, hi, moves).value.events, ReleaseOf(port));
  }

  /** The only port, once granted, is refused to the next thread, and let through once it came
      back. */
  lemma {:induction false} OnlyPortComesBack(lo: int)
    ensures RaceRun(lo, lo, [Ask(0)] + [Enter(0)] + [Ask(1)]) == Some(Race([Reservation], {}))
    ensures RaceRun(lo, lo, [Ask(0)] + [Enter(0)] + [Return(lo)] + [Ask(1)]) ==
            Some(Race([Reservation, ReleaseOf(lo)], {1}))
  {
    assert Requests(1) == [Reservation] && Requests(0) == [];
    FillsInOrder(lo, 1, 0);
    FillsInOrder(lo, 1, 1);
    assert RaceRun(lo, lo, []) == Some(Race([], {}));
    RaceNext(lo, lo, [], Ask(0));
    assert [] + [Ask(0)] == [Ask(0)];
    RaceNext(lo, lo, [Ask(0)], Enter(0));
    RaceNext(lo, lo, [Ask(0)] + [Enter(0)], Ask(1));
    RaceNext(lo, lo, [Ask(0)] + [Enter(0)], Return(lo));
    OnePortFreed(lo);
    assert [Reservation] + [ReleaseOf(lo)] == [Reservation, ReleaseOf(lo)];
    assert {} + {1} == {1};
    RaceNext(lo, lo, [Ask(0)] + [Enter(0)] + [Return(lo)], Ask(1));
  }

  lemma {:induction false} OnePortFreed(lo: int)
    ensures !Full(Trail(lo, lo, [Reservation] + [ReleaseOf(lo)]).pool)
  {
    FillsInOrder(lo, 1, 1);
    assert Requests(1) == [Reservation];
    TrailNext(lo, lo, [Reservation], ReleaseOf(lo));
    PositionIs(Filled(lo, 1, 1).slots, lo, 0);
  }

  // ---------- without returns ----------

  /** The ports granted, in order. */
  function Grants(lo: int, hi: int, events: seq<Event>): seq<int>
    requires lo <= hi
  {
    if events == [] then []
    else
      var front := events[..|events| - 1];
      Grants(lo, hi, front) +
      if events[|events| - 1].Reservation? then [Granted(Trail(lo, hi, front).pool)] else []
  }

  predicate AllInUse(slots: seq<Slot>) {
    forall i :: 0 <= i < |slots| ==> slots[i].now
  }

  /** g grants without a return: the ports of the range in order, then the first one over and over. */
  function InOrder(lo: int, n: nat, g: nat): seq<int> {
    seq(g, i => if i < n then lo + i else lo)
  }

  /** When no port is given back, the grants are of the ports of the range in order, and once
      there are no more, of the first port over and over; the pool refuses exactly when each
      port was granted once. */
  lemma {:induction false} GrantsInOrder(lo: int, n: nat, g: nat)
    requires n > 0
    ensures var es := Requests(g);
            && Grants(lo, lo + n - 1, es) == InOrder(lo, n, g)
            && (Full(Trail(lo, lo + n - 1, es).pool) <==> g == n)
  {
    GrantsAre(lo, n, g);
    PoolAfterGrants(lo, n, g);
  }

  lemma {:induction false} GrantsAre(lo: int, n: nat, g: nat)
    requires n > 0
    ensures Grants(lo, lo + n - 1, Requests(g)) == InOrder(lo, n, g)
  {
    if g > 0 {
      GrantsAre(lo, n, g - 1);
      PoolAfterGrants(lo, n, g - 1);
      GrantsNext(lo, n, g - 1, Requests(g - 1));
    }
  }

  lemma {:induction false} GrantsNext(lo: int, n: nat, g: nat, events: seq<Event>)
    requires n > 0 && Grants(lo, lo + n - 1, events) == InOrder(lo, n, g)
    requires Handed(lo, n, g, Trail(lo, lo + n - 1, events).pool)
    ensures Grants(lo, lo + n - 1, events + [Reservation]) == InOrder(lo, n, g + 1)
  {
    assert (events + [Reservation])[..|events|] == events;
    assert InOrder(lo, n, g + 1) == InOrder(lo, n, g) + [if g < n then lo + g else lo];
  }

  /** g ports were granted and none given back: the next grant is the g-th port, or the first. */
  predicate Handed(lo: int, n: nat, g: nat, p: Pool)
    requires n > 0
  {
    && p.taken == g && |p.slots| == n
    && Granted(p) == (if g < n then lo + g else lo)
    && (g >= n ==> AllInUse(p.slots) && p.slots[0].port == lo)
  }

  lemma {:induction false} PoolAfterGrants(lo: int, n: nat, g: nat)
    requires n > 0
    ensures Handed(lo, n, g, Trail(lo, lo + n - 1, Requests(g)).pool)
  {
    if g <= n {
      FillsInOrder(lo, n, g);
      if g == n {
        PickNone(Filled(lo, n, n).slots, 0);
      }
    } else {
      PoolAfterGrants(lo, n, g - 1);
      TrailNext(lo, lo + n - 1, Requests(g - 1), Reservation);
      HandedAgain(lo, n, g - 1, Trail(lo, lo + n - 1, Requests(g - 1)).pool);
    }
  }

  lemma {:induction false} HandedAgain(lo: int, n: nat, g: nat, p: Pool)
    requires 0 < n <= g && Handed(lo, n, g, p)
    ensures Handed(lo, n, g + 1, Take(p))
  {
    PickNone(p.slots, 0);
    PickNone(Take(p).slots, 0);
  }
}
