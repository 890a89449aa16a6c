/** The daemon's allocator (PortReservation in fdtd): each port counts how often it was
    reserved, and the pool counts how many reservations are outstanding. */
module PortPool {
  import opened Text

  // ---------- the pool as a value ----------

  datatype Slot = Slot(port: int, times: nat, now: bool)

  datatype Pool = Pool(slots: seq<Slot>, taken: int)

  function Fresh(lo: int, hi: int): Pool {
    Pool(seq(if lo <= hi then hi + 1 - lo else 0, i => Slot(lo + i, 0, false)), 0)
  }

  /** The slot a reservation takes: the first free one reserved less often than the first
      slot, and the first slot itself if there is none. */
  function Pick(slots: seq<Slot>, from: nat): (i: nat)
    requires from <= |slots| && slots != []
    ensures i < |slots|
    decreases |slots| - from
  {
    if from == |slots| then 0
    else if !slots[from].now && slots[from].times < slots[0].times then from
    else Pick(slots, from + 1)
  }

  /** Slot i, counted and flagged. */
  function Marked(slots: seq<Slot>, i: nat): seq<Slot>
    requires i < |slots|
  {
    slots[i := slots[i].(times := slots[i].times + 1, now := true)]
  }

  /** The locked part of reserve. */
  function Take(p: Pool): Pool
    requires p.slots != []
  {
    Pool(Marked(p.slots, Pick(p.slots, 0)), p.taken + 1)
  }

  function Granted(p: Pool): int
    requires p.slots != []
  {
    p.slots[Pick(p.slots, 0)].port
  }

  /** The test reserve makes before it takes the lock. */
  predicate Full(p: Pool) {
    |p.slots| == p.taken
  }

  /** The slot of a port, or |slots|. */
  function Position(slots: seq<Slot>, port: int): (i: nat)
    ensures i <= |slots|
    ensures i < |slots| ==> slots[i].port == port
    ensures forall j :: 0 <= j < i ==> slots[j].port != port
  {
    if slots == [] || slots[0].port == port then 0 else 1 + Position(slots[1..], port)
  }

  /** release; None is the PortReservationException. */
  function GiveBack(p: Pool, port: int): Option<Pool> {
    var i := Position(p.slots, port);
    if i < |p.slots| && p.slots[i].now then
      Some(Pool(p.slots[i := p.slots[i].(now := false)], p.taken - 1))
    else None
  }

  // ---------- the class ----------

  class Port {
    var port: int
    var reservedTimes: nat
    var reservedNow: bool

    constructor ()
      ensures port == 0 && reservedTimes == 0 && !reservedNow
    {
      port, reservedTimes, reservedNow := 0, 0, false;
    }

    function View(): Slot
      reads this
    {
      Slot(port, reservedTimes, reservedNow)
    }
  }

  class PortReservation {
    var ports: seq<Port>
    var numTakenPorts: int

    ghost predicate Valid()
      reads this, ports
    {
      && (forall i, j :: 0 <= i < j < |ports| ==> ports[i] != ports[j])
      && (ports == [] ==> numTakenPorts == 0)
    }

    ghost function View(): Pool
      reads this, ports
    {
      Pool(Slots(ports), numTakenPorts)
    }

    static ghost function Slots(ps: seq<Port>): (s: seq<Slot>)
      reads ps
      ensures |s| == |ps| && forall i :: 0 <= i < |ps| ==> s[i] == ps[i].View()
    {
      seq(|ps|, i requires 0 <= i < |ps| reads ps => ps[i].View())
    }

    constructor (portMin: int, portMax: int)
      ensures Valid() && View() == Fresh(portMin, portMax) && fresh(ports)
    {
      ports := [];
      numTakenPorts := 0;
      new;
      var n := if portMin <= portMax then portMax + 1 - portMin else 0;
      while |ports| < n
        invariant |ports| <= n && Valid() && fresh(ports) && numTakenPorts == 0
        invariant forall i :: 0 <= i < |ports| ==> ports[i].View() == Slot(portMin + i, 0, false)
      {
        var p := new Port();
        p.port := portMin + |ports|;
        ports := ports + [p];
      }
      assert View().slots == Fresh(portMin, portMax).slots;
    }

    /** reserve, run without interruption; None is the PortReservationException. */
    method Reserve() returns (port: Option<int>)
      requires Valid()
      modifies this`numTakenPorts, ports
      ensures Valid() && ports == old(ports)
      ensures |ports| == old(numTakenPorts) ==> port == None && View() == old(View())
      ensures |ports| != old(numTakenPorts) ==>
                ports != [] && port == Some(Granted(old(View()))) && View() == Take(old(View()))
    {
      if |ports| == numTakenPorts {
        return None;
      }
      var p := TakePort();
      return Some(p);
    }

    /** What reserve does while it holds the lock. */
    method TakePort() returns (port: int)
      requires Valid() && ports != []
      modifies this`numTakenPorts, ports
      ensures Valid() && ports == old(ports)
      ensures port == Granted(old(View())) && View() == Take(old(View()))
    {
      var candid := Candidate();
      ghost var slots := Slots(ports);
      Mark(candid);
      assert Slots(ports) == Marked(slots, candid);
      port := ports[candid].port;
      numTakenPorts := numTakenPorts + 1;
    }

    /** The search loop of reserve. */
    method Candidate() returns (candid: nat)
      requires Valid() && ports != []
      ensures candid < |ports| && candid == Pick(Slots(ports), 0)
    {
      ghost var slots := Slots(ports);
      candid := 0;
      var i := 0;
      while i < |ports|
        invariant 0 <= i <= |ports|
        invariant Pick(slots, 0) == Pick(slots, i)
      {
        if !ports[i].reservedNow && ports[i].reservedTimes < ports[0].reservedTimes {
          return i;
        }
        i := i + 1;
      }
    }

    /** Count and flag one slot. */
    method Mark(i: nat)
      requires Valid() && i < |ports|
      modifies ports
      ensures Slots(ports) == Marked(old(Slots(ports)), i) && ports[i].port == old(Slots(ports))[i].port
    {
      ports[i].reservedTimes := ports[i].reservedTimes + 1;
      ports[i].reservedNow := true;
      assert forall j :: 0 <= j < |ports| && j != i ==> ports[j].View() == old(Slots(ports))[j];
    }

    /** release; the exception is raised for a port that is unknown or not reserved. */
    method Release(portToRel: int) returns (raised: bool)
      requires Valid()
      modifies this`numTakenPorts, ports
      ensures Valid() && ports == old(ports)
      ensures raised == (GiveBack(old(View()), portToRel) == None)
      ensures View() == if raised then old(View()) else GiveBack(old(View()), portToRel).value
    {
      ghost var slots := Slots(ports);
      var i := 0;
      while i < |ports| && ports[i].port != portToRel
        invariant 0 <= i <= |ports|
        invariant forall j :: 0 <= j < i ==> ports[j].port != portToRel
      {
        i := i + 1;
      }
      assert i == Position(slots, portToRel);
      if i == |ports| || !ports[i].reservedNow {
        return true;
      }
      ports[i].reservedNow := false;
      numTakenPorts := numTakenPorts - 1;
      assert View().slots == slots[i := slots[i].(now := false)];
      return false;
    }
  }

  // ---------- what the operations do ----------

  /** A new pool holds each port of the range, both ends included. */
  lemma {:induction false} FreshHoldsRange(lo: int, hi: int)
    ensures Fresh(lo, hi).taken == 0
    ensures |Fresh(lo, hi).slots| == if hi < lo then 0 else hi - lo + 1
    ensures forall i :: 0 <= i < |Fresh(lo, hi).slots| ==> Fresh(lo, hi).slots[i] == Slot(lo + i, 0, false)
  {
  }

  /** A reservation takes slot c: the first free one reserved less often than the first slot, or
      else the first slot, in use or not. Only that slot changes, and the count. */
  lemma {:induction false} TakeIs(p: Pool) returns (c: nat)
    requires p.slots != []
    ensures c < |p.slots| && Granted(p) == p.slots[c].port
    ensures Take(p) == Pool(p.slots[c := Slot(p.slots[c].port, p.slots[c].times + 1, true)], p.taken + 1)
    ensures c > 0 ==> !p.slots[c].now && p.slots[c].times < p.slots[0].times
    ensures forall j :: 1 <= j < (if c > 0 then c else |p.slots|) ==>
              p.slots[j].now || p.slots[j].times >= p.slots[0].times
  {
    c := Pick(p.slots, 0);
    NoneSkipped(p.slots, 0);
  }

  lemma {:induction false} NoneSkipped(slots: seq<Slot>, from: nat)
    requires from <= |slots| && slots != []
    ensures var i := Pick(slots, from);
            && (i > 0 ==> !slots[i].now && slots[i].times < slots[0].times)
            && forall j :: from <= j < (if i > 0 then i else |slots|) ==>
                 slots[j].now || slots[j].times >= slots[0].times
    decreases |slots| - from
  {
    if from < |slots| {
      NoneSkipped(slots, from + 1);
    }
  }

  /** A release of the port of slot i frees it and keeps how often it was reserved; it raises for
      a port that is not reserved, and for one the pool does not have. */
  lemma {:induction false} GiveBackIs(p: Pool, port: int)
    ensures forall i :: 0 <= i < |p.slots| && p.slots[i].port == port &&
                        (forall j :: 0 <= j < i ==> p.slots[j].port != port) ==>
              GiveBack(p, port) ==
              if !p.slots[i].now then None
              else Some(Pool(p.slots[i := Slot(port, p.slots[i].times, false)], p.taken - 1))
    ensures (forall i :: 0 <= i < |p.slots| ==> p.slots[i].port != port) ==> GiveBack(p, port) == None
  {
    forall i | 0 <= i < |p.slots| && p.slots[i].port == port && (forall j :: 0 <= j < i ==> p.slots[j].port != port)
      ensures Position(p.slots, port) == i
    {
      PositionIs(p.slots, port, i);
    }
  }

  // ---------- when a granted port was free ----------

  lemma {:induction false} PickIs(slots: seq<Slot>, from: nat)
    requires from <= |slots| && slots != []
    ensures var i := Pick(slots, from);
            || (from <= i && !slots[i].now && slots[i].times < slots[0].times)
            || (i == 0 && forall j :: from <= j < |slots| ==> slots[j].now || slots[j].times >= slots[0].times)
    decreases |slots| - from
  {
    if from < |slots| {
      PickIs(slots, from + 1);
    }
  }

  /** reserve hands out a port nobody has exactly when its first port is free, or some free
      port was reserved less often than the first one. */
  lemma {:induction false} GrantIsFreeWhen(p: Pool)
    requires p.slots != []
    ensures !p.slots[Pick(p.slots, 0)].now <==>
            || !p.slots[0].now
            || exists i :: 0 <= i < |p.slots| && !p.slots[i].now && p.slots[i].times < p.slots[0].times
  {
    PickIs(p.slots, 0);
  }

  /** Two ports: reserve both, release the second, reserve again. The first one, still in use,
      is handed out although the second is free. */
  lemma {:induction false} ReserveCanShareAPort(lo: int)
    ensures var p1 := Take(Fresh(lo, lo + 1));
            var p2 := Take(p1);
            var p3 := GiveBack(p2, lo + 1);
            && Granted(Fresh(lo, lo + 1)) == lo && Granted(p1) == lo + 1
            && p3.Some? && !Full(p3.value)
            && p3.value.slots == [Slot(lo, 1, true), Slot(lo + 1, 1, false)]
            && Granted(p3.value) == lo
  {
    var p0 := Fresh(lo, lo + 1);
    assert p0.slots == [Slot(lo, 0, false), Slot(lo + 1, 0, false)];
    assert Pick(p0.slots, 1) == Pick(p0.slots, 2) == 0;
    var p1 := Take(p0);
    assert p1.slots == [Slot(lo, 1, true), Slot(lo + 1, 0, false)];
    assert Pick(p1.slots, 1) == 1;
    var p2 := Take(p1);
    assert p2.slots == [Slot(lo, 1, true), Slot(lo + 1, 1, true)];
    assert Position(p2.slots[1..], lo + 1) == 0;
    assert Position(p2.slots, lo + 1) == 1;
    var slots := GiveBack(p2, lo + 1).value.slots;
    assert slots == [Slot(lo, 1, true), Slot(lo + 1, 1, false)];
    assert Pick(slots, 1) == Pick(slots, 2) == 0;
  }

  // ---------- conservation over all runs ----------

  function InUse(slots: seq<Slot>): nat {
    if slots == [] then 0 else (if slots[0].now then 1 else 0) + InUse(slots[1..])
  }

  lemma {:induction false} InUseOfUpdate(slots: seq<Slot>, i: nat, s: Slot)
    requires i < |slots|
    ensures InUse(slots[i := s]) == InUse(slots) - (if slots[i].now then 1 else 0) + (if s.now then 1 else 0)
  {
    if i > 0 {
      assert slots[i := s][1..] == slots[1..][i - 1 := s];
      InUseOfUpdate(slots[1..], i - 1, s);
    } else {
      assert slots[i := s][1..] == slots[1..];
    }
  }

  lemma {:induction false} InUseBounds(slots: seq<Slot>)
    ensures InUse(slots) <= |slots|
    ensures InUse(slots) == 0 <==> forall i :: 0 <= i < |slots| ==> !slots[i].now
  {
    if slots != [] {
      InUseBounds(slots[1..]);
      assert forall i :: 1 <= i < |slots| ==> slots[i] == slots[1..][i - 1];
    }
  }

  /** What happens to a pool under its lock, in the order the lock is taken. */
  datatype Event = Reservation | ReleaseOf(port: int)

  /** A pool after some events, and how many of its grants were of ports in use. */
  datatype Trace = Trace(pool: Pool, doubles: nat)

  function Apply(t: Trace, e: Event): Trace
    requires t.pool.slots != []
  {
    match e
    case Reservation =>
      Trace(Take(t.pool), t.doubles + if t.pool.slots[Pick(t.pool.slots, 0)].now then 1 else 0)
    case ReleaseOf(port) =>
      match GiveBack(t.pool, port)
      case None => t
      case Some(p) => t.(pool := p)
  }

  function Trail(lo: int, hi: int, events: seq<Event>): (t: Trace)
    requires lo <= hi
    ensures |t.pool.slots| == hi + 1 - lo
  {
    if events == [] then Trace(Fresh(lo, hi), 0)
    else Apply(Trail(lo, hi, events[..|events| - 1]), events[|events| - 1])
  }

  /** In every interleaving of locked sections, the count of outstanding reservations is the
      number of ports in use plus the number of double grants there ever were: a double grant
      costs the pool one port for good. */
  lemma {:induction false} DoubleGrantsAreNeverPaidBack(lo: int, hi: int, events: seq<Event>)
    requires lo <= hi
    ensures var t := Trail(lo, hi, events); t.pool.taken == InUse(t.pool.slots) + t.doubles
  {
    if events == [] {
      InUseBounds(Fresh(lo, hi).slots);
    } else {
      var t := Trail(lo, hi, events[..|events| - 1]);
      DoubleGrantsAreNeverPaidBack(lo, hi, events[..|events| - 1]);
      match events[|events| - 1]
      case Reservation =>
        var i := Pick(t.pool.slots, 0);
        InUseOfUpdate(t.pool.slots, i, t.pool.slots[i].(times := t.pool.slots[i].times + 1, now := true));
      case ReleaseOf(port) =>
        var i := Position(t.pool.slots, port);
        if i < |t.pool.slots| {
          InUseOfUpdate(t.pool.slots, i, t.pool.slots[i].(now := false));
        }
    }
  }

  /** A sequential client: each reservation passes the test first. */
  predicate Sequential(lo: int, hi: int, events: seq<Event>)
    requires lo <= hi
  {
    events == [] ||
    (var front := events[..|events| - 1];
     Sequential(lo, hi, front) && (events[|events| - 1].Reservation? ==> !Full(Trail(lo, hi, front).pool)))
  }

  /** With a sequential client at most all ports but one are lost, so that a pool with no port
      in use always grants one; and it refuses exactly when the ports in use and the lost
      ones make up the range. */
  lemma {:induction false} CapacityShrinksToOne(lo: int, hi: int, events: seq<Event>)
    requires lo <= hi && Sequential(lo, hi, events)
    ensures var t := Trail(lo, hi, events);
            && t.doubles <= hi - lo && t.pool.taken <= hi + 1 - lo
            && (Full(t.pool) <==> InUse(t.pool.slots) == hi + 1 - lo - t.doubles)
            && (InUse(t.pool.slots) == 0 ==> !Full(t.pool) && !t.pool.slots[Pick(t.pool.slots, 0)].now)
  {
    DoubleGrantsAreNeverPaidBack(lo, hi, events);
    var t := Trail(lo, hi, events);
    InUseBounds(t.pool.slots);
    if events != [] {
      var front := Trail(lo, hi, events[..|events| - 1]);
      CapacityShrinksToOne(lo, hi, events[..|events| - 1]);
      DoubleGrantsAreNeverPaidBack(lo, hi, events[..|events| - 1]);
      InUseBounds(front.pool.slots);
    }
    GrantIsFreeWhen(t.pool);
  }

  // ---------- round robin ----------

  /** The idle pool in round q of a round robin, with the wheel at slot r. */
  function Rotated(lo: int, n: nat, q: nat, r: nat): Pool {
    Pool(seq(n, i => Slot(lo + i, if i < r then q + 1 else q, false)), 0)
  }

  /** q rounds and r more turns in which a port is reserved and given back: in each round the
      ports of the range one after the other. */
  function Turns(lo: int, n: nat, q: nat, r: nat): seq<Event>
    requires r <= n
    decreases q, r
  {
    if r > 0 then Turns(lo, n, q, r - 1) + [Reservation] + [ReleaseOf(lo + r - 1)]
    else if q > 0 then Turns(lo, n, q - 1, n)
    else []
  }

  lemma {:induction false} PickFirst(slots: seq<Slot>, from: nat, i: nat)
    requires from <= i < |slots| && !slots[i].now && slots[i].times < slots[0].times
    requires forall j :: from <= j < i ==> slots[j].now || slots[j].times >= slots[0].times
    ensures Pick(slots, from) == i
    decreases i - from
  {
    if from < i {
      PickFirst(slots, from + 1, i);
    }
  }

  lemma {:induction false} PickNone(slots: seq<Slot>, from: nat)
    requires from <= |slots| && slots != []
    requires forall j :: from <= j < |slots| ==> slots[j].now || slots[j].times >= slots[0].times
    ensures Pick(slots, from) == 0
    decreases |slots| - from
  {
    if from < |slots| {
      PickNone(slots, from + 1);
    }
  }

  lemma {:induction false} PickRotated(lo: int, n: nat, q: nat, r: nat)
    requires r < n
    ensures Pick(Rotated(lo, n, q, r).slots, 0) == r
  {
    var slots := Rotated(lo, n, q, r).slots;
    if r == 0 {
      PickNone(slots, 0);
    } else {
      PickFirst(slots, 0, r);
    }
  }

  lemma {:induction false} PositionIs(slots: seq<Slot>, port: int, i: nat)
    requires i < |slots| && slots[i].port == port && forall j :: 0 <= j < i ==> slots[j].port != port
    ensures Position(slots, port) == i
  {
    if i > 0 {
      assert forall j :: 0 <= j < |slots| - 1 ==> slots[1..][j] == slots[j + 1];
      PositionIs(slots[1..], port, i - 1);
    }
  }

  lemma TrailNext(lo: int, hi: int, events: seq<Event>, e: Event)
    requires lo <= hi
    ensures Trail(lo, hi, events + [e]) == Apply(Trail(lo, hi, events), e)
  {
    assert (events + [e])[..|events|] == events;
  }

  /** As long as each port is given back before the next one is asked for, the pool is the
      round robin its comment promises: after any number of rounds and r more turns the next
      reservation gets the r-th port, and no port was ever shared. */
  lemma {:induction false} RoundRobin(lo: int, n: nat, q: nat, r: nat)
    requires r < n
    ensures var t := Trail(lo, lo + n - 1, Turns(lo, n, q, r));
            t == Trace(Rotated(lo, n, q, r), 0) && Granted(t.pool) == lo + r && !Full(t.pool)
  {
    RoundStarts(lo, n, q);
    WithinRound(lo, n, q, r);
    PickRotated(lo, n, q, r);
  }

  ghost predicate OnTrack(lo: int, n: nat, q: nat, r: nat)
    requires r <= n && n > 0
  {
    Trail(lo, lo + n - 1, Turns(lo, n, q, r)) == Trace(Rotated(lo, n, q, r), 0)
  }

  lemma TurnsNext(lo: int, n: nat, q: nat, r: nat)
    requires r < n
    ensures Turns(lo, n, q, r + 1) == Turns(lo, n, q, r) + [Reservation] + [ReleaseOf(lo + r)]
  {
  }

  lemma {:induction false} WithinRound(lo: int, n: nat, q: nat, r: nat)
    requires r <= n && n > 0 && OnTrack(lo, n, q, 0)
    ensures OnTrack(lo, n, q, r)
  {
    if r > 0 {
      WithinRound(lo, n, q, r - 1);
      OneTurn(lo, n, q, r - 1, Turns(lo, n, q, r - 1));
      TurnsNext(lo, n, q, r - 1);
    }
  }

  lemma {:induction false} RoundStarts(lo: int, n: nat, q: nat)
    requires n > 0
    ensures OnTrack(lo, n, q, 0)
  {
    if q == 0 {
      WheelStarts(lo, n);
    } else {
      RoundStarts(lo, n, q - 1);
      WithinRound(lo, n, q - 1, n);
      RoundIsOver(lo, n, q - 1);
    }
  }

  lemma RoundIsOver(lo: int, n: nat, q: nat)
    ensures Rotated(lo, n, q, n) == Rotated(lo, n, q + 1, 0)
  {
    assert Rotated(lo, n, q, n).slots == Rotated(lo, n, q + 1, 0).slots;
  }

  lemma WheelStarts(lo: int, n: nat)
    requires n > 0
    ensures Trail(lo, lo + n - 1, []) == Trace(Rotated(lo, n, 0, 0), 0)
  {
    assert Fresh(lo, lo + n - 1).slots == Rotated(lo, n, 0, 0).slots;
  }

  /** One reservation and its release turn the wheel by one slot. */
  lemma {:induction false} OneTurn(lo: int, n: nat, q: nat, r: nat, es: seq<Event>)
    requires r < n && Trail(lo, lo + n - 1, es) == Trace(Rotated(lo, n, q, r), 0)
    ensures Trail(lo, lo + n - 1, es + [Reservation] + [ReleaseOf(lo + r)]) == Trace(Rotated(lo, n, q, r + 1), 0)
  {
    TrailNext(lo, lo + n - 1, es, Reservation);
    TrailNext(lo, lo + n - 1, es + [Reservation], ReleaseOf(lo + r));
    TurnSlots(lo, n, q, r);
  }

  lemma {:induction false} TurnSlots(lo: int, n: nat, q: nat, r: nat)
    requires r < n
    ensures Apply(Apply(Trace(Rotated(lo, n, q, r), 0), Reservation), ReleaseOf(lo + r)) ==
            Trace(Rotated(lo, n, q, r + 1), 0)
  {
    PickRotated(lo, n, q, r);
    var slots := Rotated(lo, n, q, r).slots;
    var slots1 := slots[r := Slot(lo + r, q + 1, true)];
    PositionIs(slots1, lo + r, r);
    assert slots1[r := Slot(lo + r, q + 1, false)] == Rotated(lo, n, q, r + 1).slots;
  }

  /** Without any release the ports come out in order, each once. */
  lemma {:induction false} FillsInOrder(lo: int, n: nat, k: nat)
    requires n > 0 && k <= n
    ensures var t := Trail(lo, lo + n - 1, Requests(k));
            && t == Trace(Filled(lo, n, k), 0)
            && (k < n ==> Granted(t.pool) == lo + k)
            && (Full(t.pool) <==> k == n)
  {
    FilledBy(lo, n, k);
    if k < n {
      PickFilled(lo, n, k);
    }
  }

  lemma {:induction false} FilledBy(lo: int, n: nat, k: nat)
    requires n > 0 && k <= n
    ensures Trail(lo, lo + n - 1, Requests(k)) == Trace(Filled(lo, n, k), 0)
  {
    if k == 0 {
      assert Fresh(lo, lo + n - 1).slots == Filled(lo, n, 0).slots;
    } else {
      FilledBy(lo, n, k - 1);
      FillsNext(lo, n, k - 1, Requests(k - 1));
    }
  }

  lemma {:induction false} FillsNext(lo: int, n: nat, k: nat, events: seq<Event>)
    requires k < n && Trail(lo, lo + n - 1, events) == Trace(Filled(lo, n, k), 0)
    ensures Trail(lo, lo + n - 1, events + [Reservation]) == Trace(Filled(lo, n, k + 1), 0)
  {
    PickFilled(lo, n, k);
    assert Take(Filled(lo, n, k)).slots == Filled(lo, n, k + 1).slots;
    TrailNext(lo, lo + n - 1, events, Reservation);
  }

  /** k reservations and nothing else. */
  function Requests(k: nat): (events: seq<Event>)
    ensures |events| == k
  {
    if k == 0 then [] else Requests(k - 1) + [Reservation]
  }

  function Filled(lo: int, n: nat, k: nat): Pool {
    Pool(seq(n, i => if i < k then Slot(lo + i, 1, true) else Slot(lo + i, 0, false)), k)
  }

  lemma {:induction false} PickFilled(lo: int, n: nat, k: nat)
    requires k < n
    ensures Pick(Filled(lo, n, k).slots, 0) == k
  {
    if k == 0 {
      PickNone(Filled(lo, n, k).slots, 0);
    } else {
      PickFirst(Filled(lo, n, k).slots, 0, k);
    }
  }
}
