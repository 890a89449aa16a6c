/** The load test's FDTService: ports and executors shared by many threads, each guarded by a
    lock of its own. The class holds the bookkeeping as the source writes it; the machine
    interleaves the steps of any number of service and cleanUp threads. */
module PortService {
  import opened Text

  type Id = string

  // ---------- the bookkeeping ----------

  /** The first port of the range that is not taken. */
  function FirstFree(range: seq<int>, taken: set<int>): (p: Option<int>)
    ensures p == None <==> forall i :: 0 <= i < |range| ==> range[i] in taken
    ensures p.Some? ==> p.value in range && p.value !in taken
  {
    if range == [] then None
    else if range[0] !in taken then Some(range[0])
    else
      assert forall i :: 0 < i < |range| ==> range[i] == range[1..][i - 1];
      FirstFree(range[1..], taken)
  }

  /** In the ascending range the service builds, the first free port is the least one, and
      there is none exactly when all are taken. */
  lemma {:induction false} FirstFreeIsLeast(lo: int, hi: int, taken: set<int>)
    requires lo <= hi + 1
    ensures var p := FirstFree(PortRange(lo, hi), taken);
            && (p == None <==> forall q :: lo <= q <= hi ==> q in taken)
            && (p.Some? ==> lo <= p.value <= hi && p.value !in taken && forall q :: lo <= q < p.value ==> q in taken)
    decreases hi + 1 - lo
  {
    if lo <= hi {
      FirstFreeIsLeast(lo + 1, hi, taken);
      assert PortRange(lo, hi)[1..] == PortRange(lo + 1, hi);
    }
  }

  function PortRange(lo: int, hi: int): seq<int>
    requires lo <= hi + 1
  {
    seq(hi + 1 - lo, i => lo + i)
  }

  class FDTService {
    const portRange: seq<int>
    var portsTaken: set<int>
    var portsTakenLock: bool
    var executors: map<Id, int>
    var executorsLock: bool

    constructor (lo: int, hi: int)
      requires lo <= hi + 1
      ensures portRange == PortRange(lo, hi) && portsTaken == {} && executors == map[]
      ensures !portsTakenLock && !executorsLock
    {
      portRange := PortRange(lo, hi);
      portsTaken, executors := {}, map[];
      portsTakenLock, executorsLock := false, false;
    }

    /** _getFreePort; None is the PortReservationException. */
    method GetFreePort() returns (port: Option<int>)
      requires !portsTakenLock
      modifies this`portsTaken, this`portsTakenLock
      ensures port == FirstFree(portRange, old(portsTaken))
      ensures portsTaken == old(portsTaken) + (if port.Some? then {port.value} else {})
      ensures !portsTakenLock
    {
      portsTakenLock := true;
      var i := 0;
      while i < |portRange| && portRange[i] in portsTaken
        invariant 0 <= i <= |portRange|
        invariant forall j :: 0 <= j < i ==> portRange[j] in portsTaken
        invariant FirstFree(portRange, portsTaken) == FirstFree(portRange[i..], portsTaken)
      {
        assert portRange[i..][1..] == portRange[i + 1..];
        i := i + 1;
      }
      if i == |portRange| {
        portsTakenLock := false;
        return None;
      }
      portsTaken := portsTaken + {portRange[i]};
      portsTakenLock := false;
      return Some(portRange[i]);
    }

    /** _releasePort; a port that is not taken is only logged. */
    method ReleasePort(port: int) returns (logged: bool)
      requires !portsTakenLock
      modifies this`portsTaken, this`portsTakenLock
      ensures portsTaken == old(portsTaken) - {port} && logged == (port !in old(portsTaken))
      ensures !portsTakenLock
    {
      portsTakenLock := true;
      logged := port !in portsTaken;
      if !logged {
        portsTaken := portsTaken - {port};
      }
      portsTakenLock := false;
    }

    /** addExecutor; a second executor of an id is only logged. */
    method AddExecutor(id: Id, port: int) returns (logged: bool)
      requires !executorsLock
      modifies this`executors, this`executorsLock
      ensures logged == (id in old(executors))
      ensures executors == if logged then old(executors) else old(executors)[id := port]
      ensures !executorsLock
    {
      logged := id in executors;
      if !logged {
        executorsLock := true;
        executors := executors[id := port];
        executorsLock := false;
      }
    }

    /** removeExecutor; a missing id is only logged. */
    method RemoveExecutor(id: Id) returns (logged: bool)
      requires !executorsLock
      modifies this`executors, this`executorsLock
      ensures executors == old(executors) - {id} && logged == (id !in old(executors))
      ensures !executorsLock
    {
      executorsLock := true;
      logged := id !in executors;
      if !logged {
        executors := executors - {id};
      }
      executorsLock := false;
    }
  }

  // ---------- the threads ----------

  datatype Job = Service(id: Id) | CleanUp(id: Id)

  datatype Outcome = Registered | Refused | NotStarted | Duplicate | Missing | NotKilled | Cleaned

  /** What a thread does next. */
  datatype Pc =
    | Start                    // service: to take the ports lock; cleanUp: to look its executor up
    | Search                   // holds the ports lock: search and reserve
    | Exhausted                // holds the ports lock, found nothing
    | Reserved(port: int)      // holds the ports lock, port reserved
    | Execute(port: int)       // to start the process and wait for its log
    | Check(port: int)         // process runs: to look the own id up
    | AwaitAdd(port: int)      // to take the executors lock
    | Adding(port: int)        // holds the executors lock
    | Added                    // holds the executors lock, executor entered
    | Kill(port: int)          // executor found: to kill its process
    | AwaitRemove(port: int)   // to take the executors lock
    | Removing(port: int)      // holds the executors lock
    | Removed(port: int)       // holds the executors lock, executor gone
    | AwaitRelease(port: int)  // to take the ports lock
    | Releasing(port: int)     // holds the ports lock
    | Released                 // holds the ports lock, port given back
    | Done(outcome: Outcome)

  datatype State = State(
    taken: set<int>,
    executors: map<Id, int>,
    portsLock: Option<nat>,
    execsLock: Option<nat>,
    pcs: seq<Pc>)

  function Initial(n: nat): State {
    State({}, map[], None, None, seq(n, _ => Start))
  }

  function Goto(s: State, t: nat, pc: Pc): State
    requires t < |s.pcs|
  {
    s.(pcs := s.pcs[t := pc])
  }

  function TakePorts(s: State, t: nat, pc: Pc): Option<State>
    requires t < |s.pcs|
  {
    if s.portsLock == None then Some(Goto(s, t, pc).(portsLock := Some(t))) else None
  }

  function TakeExecs(s: State, t: nat, pc: Pc): Option<State>
    requires t < |s.pcs|
  {
    if s.execsLock == None then Some(Goto(s, t, pc).(execsLock := Some(t))) else None
  }

  /** The next step of thread t: None if it waits for a lock or is done. `works` is what the
      outside does: the process starts and keeps running, or the kill succeeds. */
  function Next(range: seq<int>, job: Job, s: State, t: nat, works: bool): Option<State>
    requires t < |s.pcs|
  {
    match s.pcs[t]
    case Start =>
      if job.Service? then TakePorts(s, t, Search)
      else if job.id in s.executors then Some(Goto(s, t, Kill(s.executors[job.id])))
      else Some(Goto(s, t, Done(Missing)))
    case Search =>
      (match FirstFree(range, s.taken)
       case None => Some(Goto(s, t, Exhausted))
       case Some(p) => Some(Goto(s, t, Reserved(p)).(taken := s.taken + {p})))
    case Exhausted => Some(Goto(s, t, Done(Refused)).(portsLock := None))
    case Reserved(p) => Some(Goto(s, t, Execute(p)).(portsLock := None))
    case Execute(p) => Some(Goto(s, t, if works then Check(p) else AwaitRelease(p)))
    case Check(p) => Some(Goto(s, t, if job.id in s.executors then Done(Duplicate) else AwaitAdd(p)))
    case AwaitAdd(p) => TakeExecs(s, t, Adding(p))
    case Adding(p) => Some(Goto(s, t, Added).(executors := s.executors[job.id := p]))
    case Added => Some(Goto(s, t, Done(Registered)).(execsLock := None))
    case Kill(p) => Some(Goto(s, t, if works then AwaitRemove(p) else Done(NotKilled)))
    case AwaitRemove(p) => TakeExecs(s, t, Removing(p))
    case Removing(p) => Some(Goto(s, t, Removed(p)).(executors := s.executors - {job.id}))
    case Removed(p) => Some(Goto(s, t, AwaitRelease(p)).(execsLock := None))
    case AwaitRelease(p) => TakePorts(s, t, Releasing(p))
    case Releasing(p) => Some(Goto(s, t, Released).(taken := s.taken - {p}))
    case Released => Some(Goto(s, t, Done(if job.Service? then NotStarted else Cleaned)).(portsLock := None))
    case Done(_) => None
  }

  /** One entry of a schedule: who moves, and what the outside does. */
  datatype Move = Move(thread: nat, works: bool)

  function Step(range: seq<int>, jobs: seq<Job>, s: State, m: Move): Option<State> {
    if m.thread < |jobs| && m.thread < |s.pcs| then Next(range, jobs[m.thread], s, m.thread, m.works) else None
  }

  /** The state a schedule leads to from the start; None if one of its moves is not possible. */
  function Run(range: seq<int>, jobs: seq<Job>, moves: seq<Move>): Option<State> {
    if moves == [] then Some(Initial(|jobs|))
    else
      match Run(range, jobs, moves[..|moves| - 1])
      case None => None
      case Some(s) => Step(range, jobs, s, moves[|moves| - 1])
  }

  // ---------- ownership ----------

  /** The range holds no two different ports. */
  predicate OnePort(range: seq<int>) {
    forall i, j :: 0 <= i < |range| && 0 <= j < |range| ==> range[i] == range[j]
  }

  /** The id is never registered, whatever happens. */
  predicate Barren(range: seq<int>, jobs: seq<Job>, id: Id) {
    range == [] || Service(id) !in jobs
  }

  /** An id is served twice only if there is just one port, and cleaned up twice only if it is
      never registered. */
  predicate Harmless(range: seq<int>, jobs: seq<Job>) {
    forall i, j :: 0 <= i < j < |jobs| && jobs[i] == jobs[j] ==>
      match jobs[i]
      case Service(_) => OnePort(range)
      case CleanUp(id) => Barren(range, jobs, id)
  }

  /** The port a thread is responsible for: reserved and neither registered nor released, or
      taken over from a removed executor and not yet released. */
  function Held(pc: Pc): Option<int> {
    match pc
    case Reserved(q) => Some(q)
    case Execute(q) => Some(q)
    case Check(q) => Some(q)
    case AwaitAdd(q) => Some(q)
    case Adding(q) => Some(q)
    case Removed(q) => Some(q)
    case AwaitRelease(q) => Some(q)
    case Releasing(q) => Some(q)
    case _ => None
  }

  datatype Owner = Thread(t: nat) | Registry(id: Id)

  predicate Owns(s: State, o: Owner, p: int) {
    match o
    case Thread(t) => t < |s.pcs| && Held(s.pcs[t]) == Some(p)
    case Registry(id) => id in s.executors && s.executors[id] == p
  }

  /** portsTaken is exactly the disjoint union of what the owners own. */
  ghost predicate ExclusivelyOwned(s: State) {
    && (forall p :: p in s.taken <==> exists o :: Owns(s, o, p))
    && (forall o1, o2, p :: Owns(s, o1, p) && Owns(s, o2, p) ==> o1 == o2)
  }

  predicate InPorts(pc: Pc) {
    pc.Search? || pc.Exhausted? || pc.Reserved? || pc.Releasing? || pc.Released?
  }

  predicate InExecs(pc: Pc) {
    pc.Adding? || pc.Added? || pc.Removing? || pc.Removed?
  }

  /** A lock is held by exactly the thread inside its section. */
  ghost predicate LocksFit(s: State) {
    forall t :: 0 <= t < |s.pcs| ==>
      && (InPorts(s.pcs[t]) <==> s.portsLock == Some(t))
      && (InExecs(s.pcs[t]) <==> s.execsLock == Some(t))
  }

  predicate LockHoldersExist(s: State) {
    && (s.portsLock.Some? ==> s.portsLock.value < |s.pcs|)
    && (s.execsLock.Some? ==> s.execsLock.value < |s.pcs|)
  }

  predicate ServicePc(pc: Pc) {
    || pc.Start? || pc.Search? || pc.Exhausted? || pc.Reserved? || pc.Execute? || pc.Check?
    || pc.AwaitAdd? || pc.Adding? || pc.Added? || pc.AwaitRelease? || pc.Releasing? || pc.Released?
    || (pc.Done? && (pc.outcome.Registered? || pc.outcome.Refused? || pc.outcome.NotStarted?))
  }

  predicate CleanUpPc(pc: Pc) {
    || pc.Start? || pc.Kill? || pc.AwaitRemove? || pc.Removing? || pc.Removed?
    || pc.AwaitRelease? || pc.Releasing? || pc.Released?
    || (pc.Done? && (pc.outcome.Missing? || pc.outcome.NotKilled? || pc.outcome.Cleaned?))
  }

  /** The registry holds an id only after its service entered it, unless there is but one port;
      and a cleanUp that found its executor still finds it until it removes it itself. */
  predicate ThreadFits(range: seq<int>, s: State, job: Job, pc: Pc) {
    match job
    case Service(id) => ServicePc(pc) && (id in s.executors ==> OnePort(range) || pc.Added? || pc == Done(Registered))
    case CleanUp(id) =>
      && CleanUpPc(pc)
      && (pc.Kill? || pc.AwaitRemove? || pc.Removing? ==> id in s.executors && s.executors[id] == pc.port)
  }

  /** A cleanUp of an id that is never registered finds nothing. */
  predicate FindsNothing(range: seq<int>, jobs: seq<Job>, job: Job, pc: Pc) {
    job.CleanUp? && Barren(range, jobs, job.id) ==> pc.Start? || pc.Done?
  }

  ghost predicate ThreadsFit(range: seq<int>, jobs: seq<Job>, s: State) {
    && |s.pcs| == |jobs|
    && (forall t :: 0 <= t < |jobs| ==> ThreadFits(range, s, jobs[t], s.pcs[t]))
    && (forall t :: 0 <= t < |jobs| ==> FindsNothing(range, jobs, jobs[t], s.pcs[t]))
    && (forall id :: id in s.executors ==> !Barren(range, jobs, id))
  }

  /** The owner of every taken port, as a table. */
  ghost predicate Owned(s: State, owner: map<int, Owner>) {
    && owner.Keys == s.taken
    && (forall t, p :: 0 <= t < |s.pcs| ==> (Held(s.pcs[t]) == Some(p) <==> p in owner && owner[p] == Thread(t)))
    && (forall id, p :: (id in s.executors && s.executors[id] == p) <==> (p in owner && owner[p] == Registry(id)))
    && (forall p :: p in owner && owner[p].Thread? ==> owner[p].t < |s.pcs|)
  }

  ghost predicate Inv(range: seq<int>, jobs: seq<Job>, s: State) {
    && LocksFit(s) && LockHoldersExist(s) && ThreadsFit(range, jobs, s)
    && (forall p :: p in s.taken ==> p in range)
    && exists owner :: Owned(s, owner)
  }

  lemma {:induction false} OwnedIsExclusive(s: State, owner: map<int, Owner>)
    requires Owned(s, owner)
    ensures ExclusivelyOwned(s)
  {
    forall p | p in s.taken ensures exists o :: Owns(s, o, p) {
      assert Owns(s, owner[p], p);
    }
    forall o, p | Owns(s, o, p) ensures p in owner && owner[p] == o {
    }
  }

  lemma {:induction false} InitialInv(range: seq<int>, jobs: seq<Job>)
    ensures Inv(range, jobs, Initial(|jobs|))
  {
    assert Owned(Initial(|jobs|), map[]);
  }

  // ---------- what one step changes ----------

  /** Only thread t has moved. */
  predicate OnlyMoves(s: State, s': State, t: nat) {
    t < |s.pcs| == |s'.pcs| && s'.pcs == s.pcs[t := s'.pcs[t]]
  }

  /** How a step may change one lock: leave it, take it when free, or give it back. */
  predicate LockStep(lock: Option<nat>, lock': Option<nat>, t: nat, inside: bool, inside': bool) {
    || (inside == inside' && lock' == lock)
    || (!inside && inside' && lock == None && lock' == Some(t))
    || (inside && !inside' && lock' == None)
  }

  lemma {:induction false} NextLocks(range: seq<int>, job: Job, s: State, t: nat, works: bool)
    requires t < |s.pcs| && Next(range, job, s, t, works).Some?
    ensures var s' := Next(range, job, s, t, works).value;
            && OnlyMoves(s, s', t)
            && LockStep(s.portsLock, s'.portsLock, t, InPorts(s.pcs[t]), InPorts(s'.pcs[t]))
            && LockStep(s.execsLock, s'.execsLock, t, InExecs(s.pcs[t]), InExecs(s'.pcs[t]))
  {
  }

  lemma {:induction false} LockStepsKeepLocks(s: State, s': State, t: nat)
    requires LocksFit(s) && LockHoldersExist(s) && OnlyMoves(s, s', t)
    requires LockStep(s.portsLock, s'.portsLock, t, InPorts(s.pcs[t]), InPorts(s'.pcs[t]))
    requires LockStep(s.execsLock, s'.execsLock, t, InExecs(s.pcs[t]), InExecs(s'.pcs[t]))
    ensures LocksFit(s') && LockHoldersExist(s')
  {
    forall u | 0 <= u < |s'.pcs|
      ensures InPorts(s'.pcs[u]) <==> s'.portsLock == Some(u)
      ensures InExecs(s'.pcs[u]) <==> s'.execsLock == Some(u)
    {
      assert u != t ==> s'.pcs[u] == s.pcs[u];
      assert InPorts(s.pcs[u]) <==> s.portsLock == Some(u);
      assert InPorts(s.pcs[t]) <==> s.portsLock == Some(t);
      assert InExecs(s.pcs[t]) <==> s.execsLock == Some(t);
    }
  }

  /** How a step may change the bookkeeping: not at all, or by moving one port from one owner to another. */
  predicate BookStep(range: seq<int>, id: Id, s: State, s': State, t: nat)
    requires OnlyMoves(s, s', t)
  {
    var pc, pc' := s.pcs[t], s'.pcs[t];
    || (s'.taken == s.taken && s'.executors == s.executors && Held(pc') == Held(pc))
    || (pc.Search? && pc'.Reserved? && pc'.port in range && pc'.port !in s.taken
        && s'.taken == s.taken + {pc'.port} && s'.executors == s.executors)
    || (pc.Adding? && pc'.Added? && s'.taken == s.taken && s'.executors == s.executors[id := pc.port])
    || (pc.Removing? && pc' == Removed(pc.port) && s'.taken == s.taken && s'.executors == s.executors - {id})
    || (pc.Releasing? && pc'.Released? && s'.taken == s.taken - {pc.port} && s'.executors == s.executors)
  }

  /** As long as a service holds a port its id is not registered. */
  predicate NotYetRegistered(s: State, job: Job, pc: Pc) {
    job.Service? && Held(pc).Some? ==> job.id !in s.executors
  }

  lemma {:induction false} HolderIsNotRegistered(range: seq<int>, jobs: seq<Job>, s: State, t: nat)
    requires Inv(range, jobs, s) && t < |jobs|
    ensures NotYetRegistered(s, jobs[t], s.pcs[t])
    ensures Held(s.pcs[t]).Some? ==> range != []
  {
    var owner :| Owned(s, owner);
    OwnerOfHolder(range, jobs, s, t, owner);
  }

  lemma {:induction false} OwnerOfHolder(range: seq<int>, jobs: seq<Job>, s: State, t: nat, owner: map<int, Owner>)
    requires Inv(range, jobs, s) && t < |jobs| && Owned(s, owner)
    ensures NotYetRegistered(s, jobs[t], s.pcs[t])
    ensures Held(s.pcs[t]).Some? ==> range != []
  {
    assert ThreadFits(range, s, jobs[t], s.pcs[t]);
    var id := jobs[t].id;
    assert id in s.executors ==> s.executors[id] in range && owner[s.executors[id]] == Registry(id);
    if Held(s.pcs[t]).Some? {
      var p := Held(s.pcs[t]).value;
      assert owner[p] == Thread(t) && p in range;
    }
  }

  lemma {:induction false} NextBooks(range: seq<int>, job: Job, s: State, t: nat, works: bool)
    requires t < |s.pcs| && Next(range, job, s, t, works).Some?
    requires ThreadFits(range, s, job, s.pcs[t]) && NotYetRegistered(s, job, s.pcs[t])
    ensures var s' := Next(range, job, s, t, works).value;
            OnlyMoves(s, s', t) && BookStep(range, job.id, s, s', t) && ThreadFits(range, s', job, s'.pcs[t])
  {
  }

  lemma {:induction false} BookStepKeepsThreads(range: seq<int>, jobs: seq<Job>, s: State, s': State, t: nat)
    requires Harmless(range, jobs) && ThreadsFit(range, jobs, s) && OnlyMoves(s, s', t)
    requires BookStep(range, jobs[t].id, s, s', t) && ThreadFits(range, s', jobs[t], s'.pcs[t])
    requires NotYetRegistered(s, jobs[t], s.pcs[t]) && (Held(s.pcs[t]).Some? ==> range != [])
    requires FindsNothing(range, jobs, jobs[t], s'.pcs[t])
    ensures ThreadsFit(range, jobs, s')
  {
    assert ThreadFits(range, s, jobs[t], s.pcs[t]) && FindsNothing(range, jobs, jobs[t], s.pcs[t]);
    forall u | 0 <= u < |jobs|
      ensures ThreadFits(range, s', jobs[u], s'.pcs[u]) && FindsNothing(range, jobs, jobs[u], s'.pcs[u])
    {
      if u != t {
        assert s'.pcs[u] == s.pcs[u];
        assert ThreadFits(range, s, jobs[u], s.pcs[u]) && FindsNothing(range, jobs, jobs[u], s.pcs[u]);
        var i, j := if u < t then u else t, if u < t then t else u;
        assert jobs[i] == jobs[j] ==>
          match jobs[i] case Service(_) => OnePort(range) case CleanUp(id) => Barren(range, jobs, id);
      }
    }
    assert jobs[t] in jobs;
  }

  lemma {:induction false} StillFindsNothing(range: seq<int>, jobs: seq<Job>, s: State, t: nat, works: bool)
    requires ThreadsFit(range, jobs, s) && t < |jobs| && Next(range, jobs[t], s, t, works).Some?
    ensures var s' := Next(range, jobs[t], s, t, works).value;
            OnlyMoves(s, s', t) && FindsNothing(range, jobs, jobs[t], s'.pcs[t])
  {
    assert FindsNothing(range, jobs, jobs[t], s.pcs[t]);
  }

  // ---------- one port changes its owner ----------

  lemma {:induction false} QuietKeepsOwners(s: State, s': State, t: nat, owner: map<int, Owner>)
    requires Owned(s, owner) && OnlyMoves(s, s', t)
    requires s'.taken == s.taken && s'.executors == s.executors && Held(s'.pcs[t]) == Held(s.pcs[t])
    ensures Owned(s', owner)
  {
    forall u | 0 <= u < |s'.pcs| ensures Held(s'.pcs[u]) == Held(s.pcs[u]) {
      assert u != t ==> s'.pcs[u] == s.pcs[u];
    }
  }

  lemma {:induction false} ReserveKeepsOwners(s: State, s': State, t: nat, p: int, owner: map<int, Owner>)
    requires Owned(s, owner) && OnlyMoves(s, s', t)
    requires Held(s.pcs[t]) == None && Held(s'.pcs[t]) == Some(p)
    requires p !in s.taken && s'.taken == s.taken + {p} && s'.executors == s.executors
    ensures Owned(s', owner[p := Thread(t)])
  {
    forall u | 0 <= u < |s'.pcs| && u != t ensures s'.pcs[u] == s.pcs[u] {
    }
  }

  lemma {:induction false} AddKeepsOwners(s: State, s': State, t: nat, id: Id, p: int, owner: map<int, Owner>)
    requires Owned(s, owner) && OnlyMoves(s, s', t)
    requires Held(s.pcs[t]) == Some(p) && Held(s'.pcs[t]) == None
    requires id !in s.executors && s'.executors == s.executors[id := p] && s'.taken == s.taken
    ensures Owned(s', owner[p := Registry(id)])
  {
    forall u | 0 <= u < |s'.pcs| && u != t ensures s'.pcs[u] == s.pcs[u] {
    }
  }

  lemma {:induction false} RemoveKeepsOwners(s: State, s': State, t: nat, id: Id, p: int, owner: map<int, Owner>)
    requires Owned(s, owner) && OnlyMoves(s, s', t)
    requires Held(s.pcs[t]) == None && Held(s'.pcs[t]) == Some(p)
    requires id in s.executors && s.executors[id] == p && s'.executors == s.executors - {id} && s'.taken == s.taken
    ensures Owned(s', owner[p := Thread(t)])
  {
    forall u | 0 <= u < |s'.pcs| && u != t ensures s'.pcs[u] == s.pcs[u] {
    }
  }

  lemma {:induction false} ReleaseKeepsOwners(s: State, s': State, t: nat, p: int, owner: map<int, Owner>)
    requires Owned(s, owner) && OnlyMoves(s, s', t)
    requires Held(s.pcs[t]) == Some(p) && Held(s'.pcs[t]) == None
    requires s'.taken == s.taken - {p} && s'.executors == s.executors
    ensures Owned(s', owner - {p})
  {
    forall u | 0 <= u < |s'.pcs| && u != t ensures s'.pcs[u] == s.pcs[u] {
    }
  }

  lemma {:induction false} BookStepKeepsOwners(range: seq<int>, job: Job, s: State, s': State, t: nat,
                                               owner: map<int, Owner>)
      returns (owner': map<int, Owner>)
    requires Owned(s, owner) && OnlyMoves(s, s', t)
    requires ThreadFits(range, s, job, s.pcs[t]) && NotYetRegistered(s, job, s.pcs[t])
    requires BookStep(range, job.id, s, s', t)
    ensures Owned(s', owner')
  {
    var pc, pc' := s.pcs[t], s'.pcs[t];
    if s'.taken == s.taken && s'.executors == s.executors && Held(pc') == Held(pc) {
      QuietKeepsOwners(s, s', t, owner);
      owner' := owner;
    } else if pc.Search? {
      ReserveKeepsOwners(s, s', t, pc'.port, owner);
      owner' := owner[pc'.port := Thread(t)];
    } else if pc.Adding? {
      AddKeepsOwners(s, s', t, job.id, pc.port, owner);
      owner' := owner[pc.port := Registry(job.id)];
    } else if pc.Removing? {
      RemoveKeepsOwners(s, s', t, job.id, pc.port, owner);
      owner' := owner[pc.port := Thread(t)];
    } else {
      ReleaseKeepsOwners(s, s', t, pc.port, owner);
      owner' := owner - {pc.port};
    }
  }

  lemma {:induction false} StepKeepsInv(range: seq<int>, jobs: seq<Job>, s: State, m: Move)
    requires Harmless(range, jobs) && Inv(range, jobs, s)
    requires Step(range, jobs, s, m).Some?
    ensures Inv(range, jobs, Step(range, jobs, s, m).value)
  {
    var t := m.thread;
    var s' := Step(range, jobs, s, m).value;
    NextLocks(range, jobs[t], s, t, m.works);
    LockStepsKeepLocks(s, s', t);
    assert ThreadFits(range, s, jobs[t], s.pcs[t]);
    HolderIsNotRegistered(range, jobs, s, t);
    NextBooks(range, jobs[t], s, t, m.works);
    StillFindsNothing(range, jobs, s, t, m.works);
    BookStepKeepsThreads(range, jobs, s, s', t);
    var owner :| Owned(s, owner);
    var owner' := BookStepKeepsOwners(range, jobs[t], s, s', t, owner);
  }

  /** Whatever the jobs, a lock is held by exactly the thread inside its section. */
  lemma {:induction false} RunKeepsLocks(range: seq<int>, jobs: seq<Job>, moves: seq<Move>)
    requires Run(range, jobs, moves).Some?
    ensures var s := Run(range, jobs, moves).value; |s.pcs| == |jobs| && LocksFit(s) && LockHoldersExist(s)
  {
    if moves != [] {
      var m, s := moves[|moves| - 1], Run(range, jobs, moves[..|moves| - 1]).value;
      RunKeepsLocks(range, jobs, moves[..|moves| - 1]);
      NextLocks(range, jobs[m.thread], s, m.thread, m.works);
      LockStepsKeepLocks(s, Run(range, jobs, moves).value, m.thread);
    }
  }

  lemma {:induction false} RunKeepsInv(range: seq<int>, jobs: seq<Job>, moves: seq<Move>)
    requires Harmless(range, jobs) && Run(range, jobs, moves).Some?
    ensures Inv(range, jobs, Run(range, jobs, moves).value)
  {
    if moves == [] {
      InitialInv(range, jobs);
    } else {
      RunKeepsInv(range, jobs, moves[..|moves| - 1]);
      StepKeepsInv(range, jobs, Run(range, jobs, moves[..|moves| - 1]).value, moves[|moves| - 1]);
    }
  }

  /** In every interleaving, portsTaken is exactly the disjoint union of the ports held by
      services that reserved but neither registered nor released, of registered executors,
      and of cleanUps between removal and release; all are ports of the range. */
  lemma {:induction false} PortsAreExclusivelyOwned(range: seq<int>, jobs: seq<Job>, moves: seq<Move>)
    requires Harmless(range, jobs) && Run(range, jobs, moves).Some?
    ensures var s := Run(range, jobs, moves).value;
            ExclusivelyOwned(s) && forall p :: p in s.taken ==> p in range
  {
    RunKeepsInv(range, jobs, moves);
    var s := Run(range, jobs, moves).value;
    var owner :| Owned(s, owner);
    OwnedIsExclusive(s, owner);
  }
}
