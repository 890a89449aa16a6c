/** The daemon's own bookkeeping (FDTD): its allocator, and the container of executors that is
    meant to give a port back once its process is gone. */
module Daemon {
  import opened Text
  import opened PortPool
  import opened PortRace

  type Id = string

  /** A process, and the port it was started on, if any. */
  datatype Executor = Executor(process: nat, port: Option<int>)

  class FDTD {
    const portMgmt: PortReservation
    var executors: map<Id, Executor>

    constructor (portMin: int, portMax: int)
      ensures portMgmt.Valid() && portMgmt.View() == Fresh(portMin, portMax) && executors == map[]
      ensures fresh(portMgmt) && fresh(portMgmt.ports)
    {
      portMgmt := new PortReservation(portMin, portMax);
      executors := map[];
    }

    /** getFreePort; None is the PortReservationException. */
    method GetFreePort() returns (port: Option<int>)
      requires portMgmt.Valid()
      modifies portMgmt, portMgmt.ports
      ensures portMgmt.Valid() && portMgmt.ports == old(portMgmt.ports) && executors == old(executors)
      ensures |portMgmt.ports| == old(portMgmt.numTakenPorts) ==>
                port == None && portMgmt.View() == old(portMgmt.View())
      ensures |portMgmt.ports| != old(portMgmt.numTakenPorts) ==>
                && portMgmt.ports != [] && port == Some(Granted(old(portMgmt.View())))
                && portMgmt.View() == Take(old(portMgmt.View()))
    {
      port := portMgmt.Reserve();
    }

    /** addExecutor; raised is the FDTDException for an id already registered. */
    method AddExecutor(id: Id, executor: Executor) returns (raised: bool)
      modifies this
      ensures raised == (id in old(executors))
      ensures executors == if raised then old(executors) else old(executors)[id := executor]
    {
      raised := id in executors;
      if !raised {
        executors := executors[id := executor];
      }
    }

    /** removeExecutor: the entry is deleted, reported as still existing and put back; nothing
        in the block can raise the exception whose handler would release the port. */
    method RemoveExecutor(id: Id, executor: Executor) returns (logged: bool)
      modifies this
      ensures logged == (id !in old(executors))
      ensures executors == if logged then old(executors) else old(executors)[id := executor]
    {
      if id !in executors {
        return true;
      }
      executors := executors - {id};
      executors := executors[id := executor];
      return false;
    }

    /** killProcess: `fails` stands for an exception of _killProcess. */
    method KillProcess(id: Id, fails: bool) returns (raised: bool)
      modifies this
      ensures raised == (id in old(executors) && fails)
      ensures executors == old(executors)
    {
      if id in executors {
        if fails {
          return true;
        }
        var logged := RemoveExecutor(id, executors[id]);
      }
      return false;
    }

    /** A request, as the actions serve it: a receiving server reserves its port first, and an
        executor is registered once its process is open. */
    method ServeOne(op: Operation) returns (port: Option<int>)
      requires portMgmt.Valid()
      modifies this, portMgmt, portMgmt.ports
      ensures portMgmt.Valid() && portMgmt.ports == old(portMgmt.ports)
      ensures Server(portMgmt.View(), executors, if port.Some? then [port.value] else []) ==
              Do(Server(old(portMgmt.View()), old(executors), []), op)
    {
      port := None;
      match op
      case Receiving(id, process, opens) =>
        port := GetFreePort();
        if port.Some? && opens {
          var raised := AddExecutor(id, Executor(process, port));
        }
      case Sending(id, process, opens) =>
        if opens {
          var raised := AddExecutor(id, Executor(process, None));
        }
      case KillProcess(id, fails) =>
        var raised := KillProcess(id, fails);
    }

    /** A list of requests, served one after the other: the ports granted. */
    method Serve(ops: seq<Operation>) returns (granted: seq<int>)
      requires portMgmt.Valid()
      modifies this, portMgmt, portMgmt.ports
      ensures portMgmt.Valid()
      ensures Server(portMgmt.View(), executors, granted) ==
              DoAll(Server(old(portMgmt.View()), old(executors), []), ops)
    {
      ghost var start := Server(portMgmt.View(), executors, []);
      granted := [];
      for i := 0 to |ops|
        modifies this, portMgmt, portMgmt.ports
        invariant portMgmt.Valid() && portMgmt.ports == old(portMgmt.ports)
        invariant Server(portMgmt.View(), executors, granted) == DoAll(start, ops[..i])
      {
        assert ops[..i + 1][..i] == ops[..i];
        GrantedBefore(Server(portMgmt.View(), executors, []), granted, ops[i]);
        var port := ServeOne(ops[i]);
        granted := granted + if port.Some? then [port.value] else [];
      }
      assert ops[..|ops|] == ops;
    }
  }

  lemma GrantedBefore(s: Server, granted: seq<int>, op: Operation)
    requires s.granted == []
    ensures Do(s.(granted := granted), op) == Do(s, op).(granted := granted + Do(s, op).granted)
  {
    KillChangesNothing(s, "", true);
  }

  // ---------- one request at a time ----------

  /** A receiving server, which needs a port, or a sending client is started for an id, and its
      process can be opened or not; or a process is killed, which may fail. */
  datatype Operation =
    | Receiving(id: Id, process: nat, opens: bool)
    | Sending(id: Id, process: nat, opens: bool)
    | KillProcess(id: Id, fails: bool)

  /** The daemon's bookkeeping, and the ports it granted so far. */
  datatype Server = Server(pool: Pool, executors: map<Id, Executor>, granted: seq<int>)

  /** An executor is entered if its process was opened and its id is not known. */
  function Register(executors: map<Id, Executor>, id: Id, executor: Executor, opens: bool): map<Id, Executor> {
    if opens && id !in executors then executors[id := executor] else executors
  }

  function Do(s: Server, op: Operation): Server {
    match op
    case Receiving(id, process, opens) =>
      if Full(s.pool) || s.pool.slots == [] then s
      else
        var port := Granted(s.pool);
        Server(Take(s.pool), Register(s.executors, id, Executor(process, Some(port)), opens), s.granted + [port])
    case Sending(id, process, opens) =>
      s.(executors := Register(s.executors, id, Executor(process, None), opens))
    case KillProcess(id, fails) =>
      if id !in s.executors || fails then s
      else s.(executors := (s.executors - {id})[id := s.executors[id]])
  }

  function DoAll(s: Server, ops: seq<Operation>): Server {
    if ops == [] then s else Do(DoAll(s, ops[..|ops| - 1]), ops[|ops| - 1])
  }

  function PortRequests(ops: seq<Operation>): nat {
    if ops == [] then 0
    else PortRequests(ops[..|ops| - 1]) + if ops[|ops| - 1].Receiving? then 1 else 0
  }

  lemma KillChangesNothing(s: Server, id: Id, fails: bool)
    ensures Do(s, KillProcess(id, fails)) == s
  {
    if id in s.executors {
      assert (s.executors - {id})[id := s.executors[id]] == s.executors;
    }
  }

  /** Since no process is ever removed, a daemon that serves one request at a time hands out
      each port of its range once, in order, and refuses every request after that, whatever was
      cleaned up in between. */
  lemma {:induction false} SerialDaemonServesOnce(lo: int, n: nat, ops: seq<Operation>)
    requires n > 0
    ensures var s := DoAll(Server(Fresh(lo, lo + n - 1), map[], []), ops);
            var k := if PortRequests(ops) < n then PortRequests(ops) else n;
            && s.granted == InOrder(lo, n, k)
            && (Full(s.pool) <==> n <= PortRequests(ops))
            && s.pool == Filled(lo, n, k)
  {
    if ops == [] {
      assert Fresh(lo, lo + n - 1).slots == Filled(lo, n, 0).slots;
    } else {
      var front := ops[..|ops| - 1];
      SerialDaemonServesOnce(lo, n, front);
      match ops[|ops| - 1]
      case Receiving(_, _, _) =>
        if PortRequests(front) < n {
          var k := PortRequests(front);
          PickFilled(lo, n, k);
          assert Take(Filled(lo, n, k)).slots == Filled(lo, n, k + 1).slots;
          assert InOrder(lo, n, k) + [lo + k] == InOrder(lo, n, k + 1);
        }
      case Sending(_, _, _) =>
      case KillProcess(id, fails) =>
        KillChangesNothing(DoAll(Server(Fresh(lo, lo + n - 1), map[], []), front), id, fails);
    }
  }

  /** A daemon with two ports: servers get them in turn, a client gets none, a known id or a
      process that cannot be opened costs a port without being registered, a kill frees nothing. */
  lemma {:induction false} SomeRequests(lo: int)
    ensures var ops := [Receiving("a", 1, true), Sending("b", 2, true), KillProcess("a", false),
                        Receiving("b", 3, true), Receiving("c", 4, true), Sending("a", 5, true),
                        Sending("d", 6, false)];
            var s := DoAll(Server(Fresh(lo, lo + 1), map[], []), ops);
            && s.executors == map["a" := Executor(1, Some(lo)), "b" := Executor(2, None)]
            && s.granted == [lo, lo + 1]
  {
    var ops := [Receiving("a", 1, true), Sending("b", 2, true), KillProcess("a", false),
                Receiving("b", 3, true), Receiving("c", 4, true), Sending("a", 5, true), Sending("d", 6, false)];
    var start := Server(Fresh(lo, lo + 1), map[], []);
    var p1, p2 := Take(Fresh(lo, lo + 1)), Take(Take(Fresh(lo, lo + 1)));
    TwoTakes(lo);
    var one := map["a" := Executor(1, Some(lo))];
    var two := map["a" := Executor(1, Some(lo)), "b" := Executor(2, None)];
    assert "a"[0] != "b"[0] && "c"[0] != "a"[0] && "c"[0] != "b"[0];
    assert ops[..1][..0] == [] && ops[..2][..1] == ops[..1] && ops[..3][..2] == ops[..2] && ops[..4][..3] == ops[..3];
    assert ops[..5][..4] == ops[..4] && ops[..6][..5] == ops[..5];
    assert ops[..7] == ops && ops[..7][..6] == ops[..6];
    assert DoAll(start, ops[..0]) == start;
    assert DoAll(start, ops[..1]) == Server(p1, one, [lo]);
    assert DoAll(start, ops[..2]) == Server(p1, two, [lo]);
    KillChangesNothing(Server(p1, two, [lo]), "a", false);
    assert DoAll(start, ops[..3]) == Server(p1, two, [lo]);
    assert DoAll(start, ops[..4]) == Server(p2, two, [lo, lo + 1]);
    assert DoAll(start, ops[..5]) == Server(p2, two, [lo, lo + 1]);
    assert DoAll(start, ops[..6]) == Server(p2, two, [lo, lo + 1]);
    assert DoAll(start, ops) == Server(p2, two, [lo, lo + 1]);
  }

  lemma {:induction false} TwoTakes(lo: int)
    ensures var p0 := Fresh(lo, lo + 1);
            && !Full(p0) && Granted(p0) == lo && !Full(Take(p0)) && Granted(Take(p0)) == lo + 1 && Full(Take(Take(p0)))
  {
    FillsInOrder(lo, 2, 0);
    FillsInOrder(lo, 2, 1);
    FillsInOrder(lo, 2, 2);
    ReserveCanShareAPort(lo);
  }
}
