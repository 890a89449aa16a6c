/** Requests of many threads at the daemon, step by step: the ports it grants, the executors it
    holds, and how the two go together. */
module DaemonRuns {
  import opened Text
  import opened PortPool
  import opened PortRace
  import opened Daemon

  // ---------- the machine ----------

  /** Where a thread stands in a request, besides being past the test of reserve. */
  datatype Pc =
    | Starting(port: int)                      // was granted the port: to check its id
    | Entering(id: Id, executor: Executor)     // found its id unknown: to take the lock and enter it
    | Removing(id: Id, executor: Executor)     // killed the process: to take the lock and delete the entry
    | PuttingBack(id: Id, executor: Executor)  // holds the lock, entry deleted

  datatype State = State(race: Race, executors: map<Id, Executor>, locked: bool, pcs: map<nat, Pc>)

  const START := State(Race([], {}), map[], false, map[])

  /** The steps of the requests. Presence of an id and exhaustion of the ports are tested
      without a lock; a server or client that cannot be started gives up. */
  datatype Step =
    | AskPort(thread: nat)
    | TakePort(thread: nat)
    | CheckId(thread: nat, id: Id, process: nat)
    | EnterId(thread: nat)
    | GiveUp(thread: nat)
    | Kill(thread: nat, id: Id, fails: bool)
    | Delete(thread: nat)
    | PutBack(thread: nat)

  function Busy(s: State): set<nat> {
    s.race.past + s.pcs.Keys
  }

  function At(s: State, t: nat): Option<Pc> {
    if t in s.pcs then Some(s.pcs[t]) else None
  }

  /** Thread t ends its request, ... */
  function Ends(s: State, t: nat): State {
    s.(pcs := s.pcs - {t})
  }

  /** ... or stands at pc. */
  function Goto(s: State, t: nat, pc: Pc): State {
    s.(pcs := s.pcs[t := pc])
  }

  /** The port of a thread about to check its id: a server's own, and none for a client. */
  function PortAt(s: State, t: nat): Option<int> {
    if t in s.pcs && s.pcs[t].Starting? then Some(s.pcs[t].port) else None
  }

  /** None if the thread is not where the step starts, or waits for the lock. */
  function Next(lo: int, hi: int, s: State, step: Step): Option<State>
    requires lo <= hi
  {
    var t := step.thread;
    match step
    case AskPort(_) =>
      if t in Busy(s) then None else Some(s.(race := RaceStep(lo, hi, s.race, Ask(t)).value))
    case TakePort(_) =>
      if t in s.pcs || t !in s.race.past then None
      else
        var taken := s.(race := RaceStep(lo, hi, s.race, Enter(t)).value);
        Some(Goto(taken, t, Starting(Granted(PoolOf(lo, hi, s.race)))))
    case CheckId(_, id, process) =>
      if t in Busy(s) && PortAt(s, t) == None then None
      else if id in s.executors then Some(Ends(s, t))
      else Some(Goto(s, t, Entering(id, Executor(process, PortAt(s, t)))))
    case EnterId(_) =>
      (match At(s, t)
       case Some(Entering(id, executor)) =>
         if s.locked then None else Some(Ends(s, t).(executors := s.executors[id := executor]))
       case _ => None)
    case GiveUp(_) =>
      (match At(s, t)
       case Some(Starting(_)) => Some(Ends(s, t))
       case Some(Entering(_, _)) => Some(Ends(s, t))
       case _ => None)
    case Kill(_, id, fails) =>
      if t in Busy(s) then None
      else if id !in s.executors || fails then Some(s)
      else Some(Goto(s, t, Removing(id, s.executors[id])))
    case Delete(_) =>
      (match At(s, t)
       case Some(Removing(id, executor)) =>
         if s.locked then None
         else if id !in s.executors then Some(Ends(s, t))
         else Some(Goto(s, t, PuttingBack(id, executor)).(executors := s.executors - {id}, locked := true))
       case _ => None)
    case PutBack(_) =>
      (match At(s, t)
       case Some(PuttingBack(id, executor)) =>
         Some(Ends(s, t).(executors := s.executors[id := executor], locked := false))
       case _ => None)
  }

  /** The state a schedule leads to; None if one of its steps is not possible. */
  function RunAll(lo: int, hi: int, steps: seq<Step>): Option<State>
    requires lo <= hi
  {
    if steps == [] then Some(START)
    else
      match RunAll(lo, hi, steps[..|steps| - 1])
      case None => None
      case Some(s) => Next(lo, hi, s, steps[|steps| - 1])
  }

  lemma RunNext(lo: int, hi: int, steps: seq<Step>, step: Step)
    requires lo <= hi && RunAll(lo, hi, steps).Some?
    ensures RunAll(lo, hi, steps + [step]) == Next(lo, hi, RunAll(lo, hi, steps).value, step)
  {
    assert (steps + [step])[..|steps|] == steps;
  }

  /** A thread past the test stands nowhere else, and the lock is held by a thread that puts an
      entry back. */
  ghost predicate WellFormed(s: State) {
    && (forall t :: t in s.race.past ==> t !in s.pcs)
    && (s.locked ==> exists t :: t in s.pcs && s.pcs[t].PuttingBack?)
  }

  lemma {:induction false} NextIsWellFormed(lo: int, hi: int, s: State, step: Step)
    requires lo <= hi && WellFormed(s) && Next(lo, hi, s, step).Some?
    ensures WellFormed(Next(lo, hi, s, step).value)
  {
    var s' := Next(lo, hi, s, step).value;
    if s'.locked {
      if s.locked {
        var t :| t in s.pcs && s.pcs[t].PuttingBack?;
        assert t in s'.pcs && s'.pcs[t] == s.pcs[t];
      } else {
        assert s'.pcs[step.thread].PuttingBack?;
      }
    }
  }

  lemma {:induction false} RunIsWellFormed(lo: int, hi: int, steps: seq<Step>)
    requires lo <= hi && RunAll(lo, hi, steps).Some?
    ensures WellFormed(RunAll(lo, hi, steps).value)
  {
    if steps != [] {
      RunIsWellFormed(lo, hi, steps[..|steps| - 1]);
      NextIsWellFormed(lo, hi, RunAll(lo, hi, steps[..|steps| - 1]).value, steps[|steps| - 1]);
    }
  }

  // ---------- ports ----------

  /** No step gives a port back. */
  lemma {:induction false} OnlyReservations(lo: int, hi: int, steps: seq<Step>)
    requires lo <= hi && RunAll(lo, hi, steps).Some?
    ensures var r := RunAll(lo, hi, steps).value.race; r.events == Requests(|r.events|)
  {
    if steps != [] {
      OnlyReservations(lo, hi, steps[..|steps| - 1]);
      NextRace(lo, hi, RunAll(lo, hi, steps[..|steps| - 1]).value, steps[|steps| - 1]);
    }
  }

  /** A step leaves the pool alone, puts a thread past the test, or reserves a port. */
  lemma {:induction false} NextRace(lo: int, hi: int, s: State, step: Step)
    requires lo <= hi && Next(lo, hi, s, step).Some?
    ensures var r, r' := s.race, Next(lo, hi, s, step).value.race;
            || r' == r
            || (r'.events == r.events && !Full(PoolOf(lo, hi, r)))
            || (r'.events == r.events + [Reservation] && r.past != {})
  {
  }

  /** In every interleaving the first n grants are of the n ports of the range, in order and
      never shared; and requests are refused exactly as long as n ports were granted. */
  lemma {:induction false} EachPortOnce(lo: int, n: nat, steps: seq<Step>)
    requires n > 0 && RunAll(lo, lo + n - 1, steps).Some?
    ensures var r := RunAll(lo, lo + n - 1, steps).value.race;
            && Grants(lo, lo + n - 1, r.events) == InOrder(lo, n, |r.events|)
            && (Full(PoolOf(lo, lo + n - 1, r)) <==> |r.events| == n)
  {
    OnlyReservations(lo, lo + n - 1, steps);
    GrantsInOrder(lo, n, |RunAll(lo, lo + n - 1, steps).value.race.events|);
  }

  /** Nothing is ever granted again after a run. */
  ghost predicate NoMoreGrants(lo: int, hi: int, steps: seq<Step>)
    requires lo <= hi && RunAll(lo, hi, steps).Some?
  {
    forall more :: RunAll(lo, hi, steps + more).Some? ==>
      RunAll(lo, hi, steps + more).value.race.events == RunAll(lo, hi, steps).value.race.events
  }

  /** Once each port is granted all later requests are refused, exactly if no thread was past
      the test by then. */
  lemma {:induction false} ThenNoneWhen(lo: int, n: nat, steps: seq<Step>)
    requires n > 0 && RunAll(lo, lo + n - 1, steps).Some?
    requires |RunAll(lo, lo + n - 1, steps).value.race.events| == n
    ensures NoMoreGrants(lo, lo + n - 1, steps) <==> RunAll(lo, lo + n - 1, steps).value.race.past == {}
  {
    var hi := lo + n - 1;
    var s := RunAll(lo, hi, steps).value;
    if s.race.past == {} {
      EachPortOnce(lo, n, steps);
      forall more | RunAll(lo, hi, steps + more).Some? ensures RunAll(lo, hi, steps + more).value.race == s.race {
        StaysClosed(lo, hi, steps, more);
      }
    } else {
      var t :| t in s.race.past;
      RunIsWellFormed(lo, hi, steps);
      RunNext(lo, hi, steps, TakePort(t));
      assert |RunAll(lo, hi, steps + [TakePort(t)]).value.race.events| == n + 1;
    }
  }

  lemma {:induction false} StaysClosed(lo: int, hi: int, steps: seq<Step>, more: seq<Step>)
    requires lo <= hi && RunAll(lo, hi, steps).Some? && RunAll(lo, hi, steps + more).Some?
    requires var r := RunAll(lo, hi, steps).value.race; r.past == {} && Full(PoolOf(lo, hi, r))
    ensures RunAll(lo, hi, steps + more).value.race == RunAll(lo, hi, steps).value.race
  {
    if more == [] {
      assert steps + more == steps;
    } else {
      assert (steps + more)[..|steps + more| - 1] == steps + more[..|more| - 1];
      StaysClosed(lo, hi, steps, more[..|more| - 1]);
      NextRace(lo, hi, RunAll(lo, hi, steps + more[..|more| - 1]).value, more[|more| - 1]);
    }
  }

  // ---------- executors ----------

  /** The id is registered with the process, or a thread holds the lock to put that entry back. */
  predicate Stands(s: State, id: Id, process: nat) {
    || (id in s.executors && s.executors[id].process == process)
    || exists t :: t in s.pcs && s.pcs[t].PuttingBack? && s.pcs[t].id == id && s.pcs[t].executor.process == process
  }

  predicate Known(s: State, id: Id) {
    id in s.executors || exists t :: t in s.pcs && s.pcs[t].PuttingBack? && s.pcs[t].id == id
  }

  /** In every interleaving, an id once registered stays so, except while a thread that holds
      the lock is putting it back. */
  lemma {:induction false} IdsStay(lo: int, hi: int, steps: seq<Step>, k: nat, id: Id)
    requires lo <= hi && k <= |steps| && RunAll(lo, hi, steps).Some?
    ensures RunAll(lo, hi, steps[..k]).Some?
    ensures Known(RunAll(lo, hi, steps[..k]).value, id) ==> Known(RunAll(lo, hi, steps).value, id)
  {
    if k == |steps| {
      assert steps[..k] == steps;
    } else {
      var front := steps[..|steps| - 1];
      assert front[..k] == steps[..k];
      IdsStay(lo, hi, front, k, id);
      if Known(RunAll(lo, hi, front).value, id) {
        StepKeepsIds(lo, hi, RunAll(lo, hi, front).value, steps[|steps| - 1], id);
      }
    }
  }

  lemma {:induction false} StepKeepsIds(lo: int, hi: int, s: State, step: Step, id: Id)
    requires lo <= hi && Next(lo, hi, s, step).Some? && Known(s, id)
    ensures Known(Next(lo, hi, s, step).value, id)
  {
    var s' := Next(lo, hi, s, step).value;
    if id !in s.executors {
      var t :| t in s.pcs && s.pcs[t].PuttingBack? && s.pcs[t].id == id;
      assert t != step.thread ==> t in s'.pcs && s'.pcs[t] == s.pcs[t];
    } else if id !in s'.executors {
      assert s'.pcs[step.thread].PuttingBack?;
    }
  }

  /** The steps are a run with no more than k threads in the middle of a request at a time. */
  predicate AtMostBusy(lo: int, hi: int, steps: seq<Step>, k: nat)
    requires lo <= hi
  {
    steps == [] ||
    (var s := RunAll(lo, hi, steps);
     AtMostBusy(lo, hi, steps[..|steps| - 1], k) && s.Some? && |Busy(s.value)| <= k)
  }

  /** The steps start servers and clients for these ids and processes only. */
  predicate Requested(steps: seq<Step>, requests: set<(Id, nat)>) {
    forall i :: 0 <= i < |steps| && steps[i].CheckId? ==> (steps[i].id, steps[i].process) in requests
  }

  predicate StandsAfter(lo: int, hi: int, steps: seq<Step>, id: Id, process: nat)
    requires lo <= hi
  {
    RunAll(lo, hi, steps).Some? && Stands(RunAll(lo, hi, steps).value, id, process)
  }

  /** The promise of addExecutor's test: no process is ever replaced by another one under its id,
      in all runs of the requests with at most k threads busy at a time. */
  ghost predicate KeepsExecutors(lo: int, hi: int, requests: set<(Id, nat)>, k: nat)
    requires lo <= hi
  {
    forall steps: seq<Step>, j, id, process ::
      && AtMostBusy(lo, hi, steps, k) && Requested(steps, requests)
      && 0 <= j <= |steps| && StandsAfter(lo, hi, steps[..j], id, process) ==>
        StandsAfter(lo, hi, steps, id, process)
  }

  /** No id is requested for two processes. */
  predicate OneProcessEach(requests: set<(Id, nat)>) {
    forall a, b :: a in requests && b in requests && a.0 == b.0 ==> a == b
  }

  /** It holds exactly if no id is requested for two processes, or requests are served one at a
      time. */
  lemma {:induction false} KeepsExecutorsWhen(lo: int, hi: int, requests: set<(Id, nat)>, k: nat)
    requires lo <= hi
    ensures KeepsExecutors(lo, hi, requests, k) <==> k <= 1 || OneProcessEach(requests)
  {
    if k <= 1 || OneProcessEach(requests) {
      forall steps: seq<Step>, j, id, process |
        && AtMostBusy(lo, hi, steps, k) && Requested(steps, requests)
        && 0 <= j <= |steps| && StandsAfter(lo, hi, steps[..j], id, process)
        ensures StandsAfter(lo, hi, steps, id, process)
      {
        if k <= 1 {
          OneBusyKeeps(lo, hi, steps, k, j, id, process);
        } else {
          OneProcessKeeps(lo, hi, steps, requests, k, j, id, process);
        }
      }
    } else {
      var a, b :| a in requests && b in requests && a.0 == b.0 && a.1 != b.1;
      TwoEnter(lo, hi, requests, k, a.0, a.1, b.1);
    }
  }

  // ---------- one process for each id ----------

  /** All entries, and those threads carry, were requested. */
  predicate Recorded(s: State, requests: set<(Id, nat)>) {
    && (forall id :: id in s.executors ==> (id, s.executors[id].process) in requests)
    && (forall t :: t in s.pcs && !s.pcs[t].Starting? ==> (s.pcs[t].id, s.pcs[t].executor.process) in requests)
  }

  lemma {:induction false} StaysRecorded(lo: int, hi: int, s: State, step: Step, requests: set<(Id, nat)>)
    requires lo <= hi && Recorded(s, requests) && Next(lo, hi, s, step).Some?
    requires step.CheckId? ==> (step.id, step.process) in requests
    ensures Recorded(Next(lo, hi, s, step).value, requests)
  {
  }

  lemma {:induction false} RunIsRecorded(lo: int, hi: int, steps: seq<Step>, requests: set<(Id, nat)>)
    requires lo <= hi && RunAll(lo, hi, steps).Some? && Requested(steps, requests)
    ensures Recorded(RunAll(lo, hi, steps).value, requests)
  {
    if steps != [] {
      var front, last := steps[..|steps| - 1], steps[|steps| - 1];
      RunIsRecorded(lo, hi, front, requests);
      assert last == steps[|steps| - 1];
      StaysRecorded(lo, hi, RunAll(lo, hi, front).value, last, requests);
    }
  }

  lemma {:induction false} OneProcessKeeps(lo: int, hi: int, steps: seq<Step>, requests: set<(Id, nat)>, k: nat,
                                           j: nat, id: Id, process: nat)
    requires lo <= hi && AtMostBusy(lo, hi, steps, k) && Requested(steps, requests) && OneProcessEach(requests)
    requires j <= |steps| && StandsAfter(lo, hi, steps[..j], id, process)
    ensures StandsAfter(lo, hi, steps, id, process)
  {
    assert RunAll(lo, hi, steps).Some?;
    IdsStay(lo, hi, steps, j, id);
    RunIsRecorded(lo, hi, steps[..j], requests);
    RunIsRecorded(lo, hi, steps, requests);
    KnownByOne(RunAll(lo, hi, steps[..j]).value, requests, id, process);
    var s := RunAll(lo, hi, steps).value;
    if id !in s.executors {
      var t :| t in s.pcs && s.pcs[t].PuttingBack? && s.pcs[t].id == id;
      assert (id, s.pcs[t].executor.process) == (id, process);
    } else {
      assert (id, s.executors[id].process) == (id, process);
    }
  }

  lemma KnownByOne(s: State, requests: set<(Id, nat)>, id: Id, process: nat)
    requires Recorded(s, requests) && Stands(s, id, process)
    ensures Known(s, id) && (id, process) in requests
  {
  }

  // ---------- one request at a time ----------

  /** What a thread found is so. */
  predicate Fits(executors: map<Id, Executor>, pc: Pc) {
    match pc
    case Starting(_) => true
    case Entering(id, _) => id !in executors
    case Removing(id, executor) => id in executors && executors[id] == executor
    case PuttingBack(id, _) => id !in executors
  }

  /** What the only busy thread found is still so. */
  ghost predicate UpToDate(s: State) {
    |Busy(s)| <= 1 && forall t :: t in s.pcs ==> Fits(s.executors, s.pcs[t])
  }

  lemma {:induction false} OnlyOne(s: set<nat>, a: nat, b: nat)
    requires |s| <= 1 && a in s && b in s
    ensures a == b
  {
    assert |s - {a}| == |s| - 1;
    assert s - {a} == {};
  }

  /** A thread in the middle of a request is alone. */
  lemma {:induction false} Alone(s: State, t: nat)
    requires |Busy(s)| <= 1 && t in s.pcs
    ensures s.pcs == map[t := s.pcs[t]]
  {
    forall u | u in s.pcs ensures u == t {
      OnlyOne(Busy(s), t, u);
    }
  }

  /** How a step of thread t may change entries and threads, if what the thread found is still so:
      not at all; by going on to a place where it fits, or ending; by entering what it carries;
      or by deleting it to put it back. */
  predicate EntryStep(s: State, s': State, t: nat) {
    || (s'.executors == s.executors && s'.pcs == s.pcs)
    || (s'.executors == s.executors && (t in s.pcs ==> !s.pcs[t].PuttingBack?) && t in s'.pcs
        && s'.pcs == s.pcs[t := s'.pcs[t]] && !s'.pcs[t].PuttingBack? && Fits(s.executors, s'.pcs[t]))
    || (s'.executors == s.executors && (t in s.pcs ==> !s.pcs[t].PuttingBack?) && s'.pcs == s.pcs - {t})
    || (t in s.pcs && (s.pcs[t].Entering? || s.pcs[t].PuttingBack?) && s'.pcs == s.pcs - {t}
        && s'.executors == s.executors[s.pcs[t].id := s.pcs[t].executor])
    || (t in s.pcs && s.pcs[t].Removing? && s'.pcs == s.pcs[t := PuttingBack(s.pcs[t].id, s.pcs[t].executor)]
        && s'.executors == s.executors - {s.pcs[t].id})
  }

  lemma {:induction false} NextEntries(lo: int, hi: int, s: State, step: Step)
    requires lo <= hi && Next(lo, hi, s, step).Some?
    requires step.thread in s.pcs ==> Fits(s.executors, s.pcs[step.thread])
    ensures EntryStep(s, Next(lo, hi, s, step).value, step.thread)
  {
  }

  lemma {:induction false} StaysUpToDate(s: State, s': State, t: nat)
    requires UpToDate(s) && EntryStep(s, s', t) && |Busy(s')| <= 1
    ensures UpToDate(s')
  {
    if t in s.pcs {
      Alone(s, t);
      LoneStays(s, s', t);
    } else {
      NewFits(s, s', t);
    }
  }

  lemma {:induction false} NewFits(s: State, s': State, t: nat)
    requires UpToDate(s) && EntryStep(s, s', t) && t !in s.pcs
    ensures forall u :: u in s'.pcs ==> Fits(s'.executors, s'.pcs[u])
  {
    assert s'.executors == s.executors;
    forall u | u in s'.pcs ensures Fits(s'.executors, s'.pcs[u]) {
      assert u != t ==> u in s.pcs && s'.pcs[u] == s.pcs[u];
    }
  }

  lemma {:induction false} LoneStays(s: State, s': State, t: nat)
    requires UpToDate(s) && EntryStep(s, s', t) && t in s.pcs && s.pcs == map[t := s.pcs[t]]
    ensures forall u :: u in s'.pcs ==> Fits(s'.executors, s'.pcs[u])
  {
    assert s'.pcs.Keys <= {t};
    assert Fits(s.executors, s.pcs[t]);
  }

  lemma {:induction false} StepKeepsEntry(s: State, s': State, t: nat, id: Id, process: nat)
    requires UpToDate(s) && EntryStep(s, s', t) && Stands(s, id, process)
    ensures Stands(s', id, process)
  {
    if t in s.pcs {
      Alone(s, t);
      if s.pcs[t].Removing? && s.pcs[t].id == id && id !in s'.executors {
        assert s'.pcs[t] == PuttingBack(id, s.executors[id]);
      }
    } else if id !in s.executors {
      var u :| u in s.pcs && s.pcs[u].PuttingBack? && s.pcs[u].id == id && s.pcs[u].executor.process == process;
      assert u in s'.pcs && s'.pcs[u] == s.pcs[u];
    }
  }

  lemma {:induction false} OneBusyIsUpToDate(lo: int, hi: int, steps: seq<Step>, k: nat)
    requires lo <= hi && AtMostBusy(lo, hi, steps, k) && k <= 1
    ensures RunAll(lo, hi, steps).Some? && UpToDate(RunAll(lo, hi, steps).value)
  {
    if steps != [] {
      OneBusyIsUpToDate(lo, hi, steps[..|steps| - 1], k);
      var s, step := RunAll(lo, hi, steps[..|steps| - 1]).value, steps[|steps| - 1];
      NextEntries(lo, hi, s, step);
      StaysUpToDate(s, Next(lo, hi, s, step).value, step.thread);
    }
  }

  lemma {:induction false} OneBusyKeeps(lo: int, hi: int, steps: seq<Step>, k: nat, j: nat, id: Id, process: nat)
    requires lo <= hi && AtMostBusy(lo, hi, steps, k) && k <= 1
    requires j <= |steps| && StandsAfter(lo, hi, steps[..j], id, process)
    ensures StandsAfter(lo, hi, steps, id, process)
  {
    if j == |steps| {
      assert steps[..j] == steps;
    } else {
      var front := steps[..|steps| - 1];
      assert front[..j] == steps[..j];
      OneBusyKeeps(lo, hi, front, k, j, id, process);
      OneBusyIsUpToDate(lo, hi, front, k);
      var s, step := RunAll(lo, hi, front).value, steps[|steps| - 1];
      NextEntries(lo, hi, s, step);
      StepKeepsEntry(s, Next(lo, hi, s, step).value, step.thread, id, process);
    }
  }

  // ---------- two processes for one id ----------

  /** Two threads register one id: both find it unknown, and the second replaces the first. */
  lemma {:induction false} TwoEnter(lo: int, hi: int, requests: set<(Id, nat)>, k: nat, id: Id, p: nat, q: nat)
    requires lo <= hi && k >= 2 && (id, p) in requests && (id, q) in requests && p != q
    ensures !KeepsExecutors(lo, hi, requests, k)
  {
    var s1 := START.(pcs := map[0 := Entering(id, Executor(p, None))]);
    CheckNext(lo, hi, START, 0, id, p, s1);
    BusyNext(lo, hi, [], START, CheckId(0, id, p), s1, k);
    SecondChecks(lo, hi, requests, [CheckId(0, id, p)], s1, k, id, p, q);
  }

  lemma {:induction false} SecondChecks(lo: int, hi: int, requests: set<(Id, nat)>, steps: seq<Step>, s: State,
                                        k: nat, id: Id, p: nat, q: nat)
    requires lo <= hi && k >= 2 && p != q && RunsTo(lo, hi, steps, s, k) && Requested(steps, requests)
    requires (id, q) in requests && s == START.(pcs := map[0 := Entering(id, Executor(p, None))])
    ensures !KeepsExecutors(lo, hi, requests, k)
  {
    var s' := START.(pcs := map[0 := Entering(id, Executor(p, None)), 1 := Entering(id, Executor(q, None))]);
    CheckNext(lo, hi, s, 1, id, q, s');
    assert Busy(s') == {0, 1};
    BusyNext(lo, hi, steps, s, CheckId(1, id, q), s', k);
    FirstEnters(lo, hi, requests, steps + [CheckId(1, id, q)], s', k, id, p, q);
  }

  lemma {:induction false} FirstEnters(lo: int, hi: int, requests: set<(Id, nat)>, steps: seq<Step>, s: State, k: nat,
                                       id: Id, p: nat, q: nat)
    requires lo <= hi && k >= 2 && p != q && RunsTo(lo, hi, steps, s, k) && Requested(steps, requests)
    requires s == START.(pcs := map[0 := Entering(id, Executor(p, None)), 1 := Entering(id, Executor(q, None))])
    ensures !KeepsExecutors(lo, hi, requests, k)
  {
    var s' := START.(executors := map[id := Executor(p, None)], pcs := map[1 := Entering(id, Executor(q, None))]);
    EnterNext(lo, hi, s, 0, s');
    BusyNext(lo, hi, steps, s, EnterId(0), s', k);
    SecondReplaces(lo, hi, requests, steps + [EnterId(0)], s', k, id, p, q);
  }

  lemma {:induction false} SecondReplaces(lo: int, hi: int, requests: set<(Id, nat)>, steps: seq<Step>, s: State,
                                          k: nat, id: Id, p: nat, q: nat)
    requires lo <= hi && k >= 2 && p != q && RunsTo(lo, hi, steps, s, k) && Requested(steps, requests)
    requires s == START.(executors := map[id := Executor(p, None)], pcs := map[1 := Entering(id, Executor(q, None))])
    ensures !KeepsExecutors(lo, hi, requests, k)
  {
    var s' := START.(executors := map[id := Executor(q, None)]);
    EnterNext(lo, hi, s, 1, s');
    BusyNext(lo, hi, steps, s, EnterId(1), s', k);
    NotKept(lo, hi, requests, steps, EnterId(1), k, id, p);
  }

  lemma EnterNext(lo: int, hi: int, s: State, t: nat, s': State)
    requires lo <= hi && t in s.pcs && s.pcs[t].Entering? && !s.locked
    requires s'.race == s.race && !s'.locked && s'.pcs == s.pcs - {t}
    requires s'.executors == s.executors[s.pcs[t].id := s.pcs[t].executor]
    ensures Next(lo, hi, s, EnterId(t)) == Some(s')
  {
  }

  lemma GiveUpNext(lo: int, hi: int, s: State, t: nat, s': State)
    requires lo <= hi && t in s.pcs && (s.pcs[t].Starting? || s.pcs[t].Entering?)
    requires s' == s.(pcs := s.pcs - {t})
    ensures Next(lo, hi, s, GiveUp(t)) == Some(s')
  {
  }

  lemma CheckNext(lo: int, hi: int, s: State, t: nat, id: Id, process: nat, s': State)
    requires lo <= hi && t !in Busy(s) && id !in s.executors
    requires s' == s.(pcs := s.pcs[t := Entering(id, Executor(process, None))])
    ensures Next(lo, hi, s, CheckId(t, id, process)) == Some(s')
  {
  }

  lemma NotKept(lo: int, hi: int, requests: set<(Id, nat)>, steps: seq<Step>, step: Step, k: nat, id: Id, p: nat)
    requires lo <= hi && AtMostBusy(lo, hi, steps + [step], k) && Requested(steps, requests) && !step.CheckId?
    requires StandsAfter(lo, hi, steps, id, p) && !StandsAfter(lo, hi, steps + [step], id, p)
    ensures !KeepsExecutors(lo, hi, requests, k)
  {
    assert (steps + [step])[..|steps|] == steps;
  }

  /** A run to the state with at most k threads busy at a time. */
  predicate RunsTo(lo: int, hi: int, steps: seq<Step>, s: State, k: nat)
    requires lo <= hi
  {
    AtMostBusy(lo, hi, steps, k) && RunAll(lo, hi, steps) == Some(s)
  }

  lemma {:induction false} BusyNext(lo: int, hi: int, steps: seq<Step>, s: State, step: Step, s': State, k: nat)
    requires lo <= hi && RunsTo(lo, hi, steps, s, k)
    requires Next(lo, hi, s, step) == Some(s') && |Busy(s')| <= k
    ensures RunsTo(lo, hi, steps + [step], s', k)
  {
    RunNext(lo, hi, steps, step);
    assert (steps + [step])[..|steps|] == steps;
  }

  // ---------- the ports of registered executors ----------

  /** Who a granted port is for: a thread that has not checked its id yet, or an id that is
      registered with it or about to be. */
  datatype Claimant = ByThread(t: nat) | ById(id: Id)

  ghost predicate Claims(s: State, c: Claimant, p: int) {
    match c
    case ByThread(t) => t in s.pcs && s.pcs[t] == Starting(p)
    case ById(id) =>
      || (id in s.executors && s.executors[id].port == Some(p))
      || exists t :: t in s.pcs && Carries(s.pcs[t], id, p)
  }

  predicate Carries(pc: Pc, id: Id, p: int) {
    !pc.Starting? && pc.id == id && pc.executor.port == Some(p)
  }

  /** The claimant of each of the g ports granted, as a table. */
  ghost predicate Owned(s: State, owner: map<int, Claimant>, lo: int, g: nat) {
    && (forall c, p :: Claims(s, c, p) ==> p in owner && owner[p] == c)
    && (forall p :: p in owner ==> lo <= p < lo + g)
  }

  /** No two registered executors have the same port. */
  predicate PortsDiffer(s: State) {
    forall a, b ::
      (a in s.executors && b in s.executors && s.executors[a].port.Some? && s.executors[a].port == s.executors[b].port)
      ==> a == b
  }

  lemma {:induction false} OwnedPortsDiffer(s: State, owner: map<int, Claimant>, lo: int, g: nat)
    requires Owned(s, owner, lo, g)
    ensures PortsDiffer(s)
  {
    forall a | a in s.executors && s.executors[a].port.Some?
      ensures s.executors[a].port.value in owner && owner[s.executors[a].port.value] == ById(a)
    {
      assert Claims(s, ById(a), s.executors[a].port.value);
    }
  }

  /** No step but a grant and a server's check of its id makes a new claim. */
  lemma {:induction false} QuietStep(lo: int, hi: int, s: State, step: Step, c: Claimant, p: int)
    requires lo <= hi && Next(lo, hi, s, step).Some? && Claims(Next(lo, hi, s, step).value, c, p)
    requires !step.TakePort? && (step.CheckId? ==> PortAt(s, step.thread) == None)
    ensures Claims(s, c, p)
  {
    var s' := Next(lo, hi, s, step).value;
    var t := step.thread;
    if c.ById? && t in s.pcs && Carries(s.pcs[t], c.id, p) {
    } else if c.ById? && !(c.id in s'.executors && s'.executors[c.id].port == Some(p)) {
      var u :| u in s'.pcs && Carries(s'.pcs[u], c.id, p);
      assert u != t ==> u in s.pcs && s.pcs[u] == s'.pcs[u];
    }
  }

  lemma {:induction false} GrantClaims(lo: int, hi: int, s: State, t: nat, c: Claimant, p: int)
    requires lo <= hi && Next(lo, hi, s, TakePort(t)).Some? && Claims(Next(lo, hi, s, TakePort(t)).value, c, p)
    ensures Claims(s, c, p) || (c == ByThread(t) && p == Granted(PoolOf(lo, hi, s.race)))
  {
    var s' := Next(lo, hi, s, TakePort(t)).value;
    if c.ById? && !(c.id in s'.executors && s'.executors[c.id].port == Some(p)) {
      var u :| u in s'.pcs && Carries(s'.pcs[u], c.id, p);
      assert u in s.pcs && s.pcs[u] == s'.pcs[u];
    }
  }

  lemma {:induction false} CheckClaims(lo: int, hi: int, s: State, t: nat, id: Id, process: nat, c: Claimant, p: int)
    requires lo <= hi && Next(lo, hi, s, CheckId(t, id, process)).Some?
    requires Claims(Next(lo, hi, s, CheckId(t, id, process)).value, c, p)
    ensures c != ByThread(t)
    ensures Claims(s, c, p) || (c == ById(id) && PortAt(s, t) == Some(p))
  {
    var s' := Next(lo, hi, s, CheckId(t, id, process)).value;
    if c.ById? && !(c.id in s'.executors && s'.executors[c.id].port == Some(p)) {
      var u :| u in s'.pcs && Carries(s'.pcs[u], c.id, p);
      assert u != t ==> u in s.pcs && s.pcs[u] == s'.pcs[u];
    }
  }

  lemma {:induction false} GrantOwned(lo: int, hi: int, s: State, t: nat, owner: map<int, Claimant>, g: nat)
    requires lo <= hi && Next(lo, hi, s, TakePort(t)).Some? && Owned(s, owner, lo, g)
    requires Granted(PoolOf(lo, hi, s.race)) == lo + g
    ensures Owned(Next(lo, hi, s, TakePort(t)).value, owner[lo + g := ByThread(t)], lo, g + 1)
  {
    var s', owner' := Next(lo, hi, s, TakePort(t)).value, owner[lo + g := ByThread(t)];
    forall c, q | Claims(s', c, q) ensures q in owner' && owner'[q] == c {
      GrantClaims(lo, hi, s, t, c, q);
    }
  }

  lemma {:induction false} CheckOwned(lo: int, hi: int, s: State, t: nat, id: Id, process: nat, p: int,
                                      owner: map<int, Claimant>, g: nat)
    requires lo <= hi && Next(lo, hi, s, CheckId(t, id, process)).Some? && Owned(s, owner, lo, g)
    requires PortAt(s, t) == Some(p)
    ensures Owned(Next(lo, hi, s, CheckId(t, id, process)).value, owner[p := ById(id)], lo, g)
  {
    var s', owner' := Next(lo, hi, s, CheckId(t, id, process)).value, owner[p := ById(id)];
    assert Claims(s, ByThread(t), p);
    forall c, q | Claims(s', c, q) ensures q in owner' && owner'[q] == c {
      CheckClaims(lo, hi, s, t, id, process, c, q);
    }
  }

  lemma {:induction false} QuietOwned(lo: int, hi: int, s: State, step: Step, owner: map<int, Claimant>, g: nat)
    requires lo <= hi && Next(lo, hi, s, step).Some? && Owned(s, owner, lo, g)
    requires !step.TakePort? && (step.CheckId? ==> PortAt(s, step.thread) == None)
    ensures Owned(Next(lo, hi, s, step).value, owner, lo, g)
  {
    var s' := Next(lo, hi, s, step).value;
    forall c, q | Claims(s', c, q) ensures q in owner && owner[q] == c {
      QuietStep(lo, hi, s, step, c, q);
    }
  }

  lemma {:induction false} NextOwned(lo: int, n: nat, s: State, step: Step, owner: map<int, Claimant>)
      returns (owner': map<int, Claimant>)
    requires n > 0 && Next(lo, lo + n - 1, s, step).Some? && s.race.events == Requests(|s.race.events|)
    requires Owned(s, owner, lo, |s.race.events|) && |Next(lo, lo + n - 1, s, step).value.race.events| <= n
    ensures var s' := Next(lo, lo + n - 1, s, step).value; Owned(s', owner', lo, |s'.race.events|)
  {
    var hi, t, g := lo + n - 1, step.thread, |s.race.events|;
    owner' := owner;
    if step.TakePort? {
      PoolAfterGrants(lo, n, g);
      GrantOwned(lo, hi, s, t, owner, g);
      owner' := owner[lo + g := ByThread(t)];
    } else if step.CheckId? && PortAt(s, t).Some? {
      CheckOwned(lo, hi, s, t, step.id, step.process, PortAt(s, t).value, owner, g);
      owner' := owner[PortAt(s, t).value := ById(step.id)];
    } else {
      QuietOwned(lo, hi, s, step, owner, g);
    }
  }

  lemma {:induction false} RunOwned(lo: int, n: nat, steps: seq<Step>) returns (owner: map<int, Claimant>)
    requires n > 0 && RunAll(lo, lo + n - 1, steps).Some?
    requires |RunAll(lo, lo + n - 1, steps).value.race.events| <= n
    ensures var s := RunAll(lo, lo + n - 1, steps).value; Owned(s, owner, lo, |s.race.events|)
  {
    owner := map[];
    if steps != [] {
      var front, last := steps[..|steps| - 1], steps[|steps| - 1];
      var s := RunAll(lo, lo + n - 1, front).value;
      assert RunAll(lo, lo + n - 1, steps) == Next(lo, lo + n - 1, s, last);
      OnlyReservations(lo, lo + n - 1, front);
      NextRace(lo, lo + n - 1, s, last);
      owner := RunOwned(lo, n, front);
      owner := NextOwned(lo, n, s, last, owner);
    }
  }

  /** As long as no more grants were made than there are ports, no two registered executors have
      the same port, in every interleaving. */
  lemma {:induction false} RegisteredPortsDiffer(lo: int, n: nat, steps: seq<Step>)
    requires n > 0 && RunAll(lo, lo + n - 1, steps).Some?
    requires |RunAll(lo, lo + n - 1, steps).value.race.events| <= n
    ensures PortsDiffer(RunAll(lo, lo + n - 1, steps).value)
  {
    var owner := RunOwned(lo, n, steps);
    var s := RunAll(lo, lo + n - 1, steps).value;
    OwnedPortsDiffer(s, owner, lo, |s.race.events|);
  }

  /** After a run and whatever follows, no two registered executors have the same port. */
  ghost predicate PortsAlwaysDiffer(lo: int, hi: int, steps: seq<Step>)
    requires lo <= hi && RunAll(lo, hi, steps).Some?
  {
    forall more :: RunAll(lo, hi, steps + more).Some? ==> PortsDiffer(RunAll(lo, hi, steps + more).value)
  }

  /** Once each port is granted, registered executors never share one, exactly if no thread was
      past the test by then. */
  lemma {:induction false} PortsAlwaysDifferWhen(lo: int, n: nat, steps: seq<Step>)
    requires n > 0 && RunAll(lo, lo + n - 1, steps).Some?
    requires |RunAll(lo, lo + n - 1, steps).value.race.events| == n
    ensures PortsAlwaysDiffer(lo, lo + n - 1, steps) <==> RunAll(lo, lo + n - 1, steps).value.race.past == {}
  {
    var hi := lo + n - 1;
    var s := RunAll(lo, hi, steps).value;
    if s.race.past == {} {
      EachPortOnce(lo, n, steps);
      forall more | RunAll(lo, hi, steps + more).Some? ensures PortsDiffer(RunAll(lo, hi, steps + more).value) {
        StaysClosed(lo, hi, steps, more);
        RegisteredPortsDiffer(lo, n, steps + more);
      }
    } else {
      var t :| t in s.race.past;
      var all, s' := TwoShare(lo, n, steps, s, t);
      assert steps + all[|steps|..] == all;
    }
  }

  // ---------- two executors on one port ----------

  /** A run that continues the steps. */
  predicate Continues(lo: int, hi: int, steps: seq<Step>, all: seq<Step>, s: State)
    requires lo <= hi
  {
    steps <= all && RunAll(lo, hi, all) == Some(s)
  }

  lemma {:induction false} GoesOn(lo: int, hi: int, steps: seq<Step>, all: seq<Step>, s: State, step: Step, s': State)
    requires lo <= hi && Continues(lo, hi, steps, all, s) && Next(lo, hi, s, step) == Some(s')
    ensures Continues(lo, hi, steps, all + [step], s')
  {
    RunNext(lo, hi, all, step);
  }

  lemma {:induction false} Above(s: set<nat>) returns (m: nat)
    ensures forall x :: x in s ==> x < m
    decreases s
  {
    m := 0;
    if s != {} {
      var x :| x in s;
      var k := Above(s - {x});
      m := if k <= x then x + 1 else k;
      forall y | y in s ensures y < m {
        assert y == x || y in s - {x};
      }
    }
  }

  lemma {:induction false} NewId(ids: set<Id>) returns (id: Id)
    ensures id !in ids
  {
    var lengths := set id | id in ids :: |id|;
    var m := Above(lengths);
    id := seq(m, _ => 'x');
    assert id in ids ==> |id| in lengths;
  }

  /** A thread past the test is granted a port and registers a new id with it. */
  lemma {:induction false} ServerStarts(lo: int, hi: int, steps: seq<Step>, all: seq<Step>, s: State, t: nat, id: Id)
      returns (all': seq<Step>, s': State)
    requires lo <= hi && Continues(lo, hi, steps, all, s)
    requires t in s.race.past && t !in s.pcs && !s.locked && id !in s.executors
    ensures Continues(lo, hi, steps, all', s')
    ensures var port := Granted(PoolOf(lo, hi, s.race));
            s' == State(Race(s.race.events + [Reservation], s.race.past - {t}),
                        s.executors[id := Executor(0, Some(port))], false, s.pcs)
  {
    var port := Granted(PoolOf(lo, hi, s.race));
    var s1 := s.(race := Race(s.race.events + [Reservation], s.race.past - {t}), pcs := s.pcs[t := Starting(port)]);
    var s2 := s1.(pcs := s.pcs[t := Entering(id, Executor(0, Some(port)))]);
    assert s1.pcs[t := s2.pcs[t]] == s2.pcs && s2.pcs - {t} == s.pcs;
    s' := State(s1.race, s.executors[id := Executor(0, Some(port))], false, s.pcs);
    GoesOn(lo, hi, steps, all, s, TakePort(t), s1);
    GoesOn(lo, hi, steps, all + [TakePort(t)], s1, CheckId(t, id, 0), s2);
    EnterNext(lo, hi, s2, t, s');
    GoesOn(lo, hi, steps, all + [TakePort(t)] + [CheckId(t, id, 0)], s2, EnterId(t), s');
    all' := all + [TakePort(t)] + [CheckId(t, id, 0)] + [EnterId(t)];
  }

  /** If the lock is held it is given back. */
  lemma {:induction false} LockComesBack(lo: int, hi: int, steps: seq<Step>, s: State)
      returns (all: seq<Step>, s': State)
    requires lo <= hi && RunAll(lo, hi, steps) == Some(s)
    ensures Continues(lo, hi, steps, all, s')
    ensures s'.race == s.race && !s'.locked && forall t :: t in s.race.past ==> t !in s'.pcs
  {
    RunIsWellFormed(lo, hi, steps);
    all, s' := steps, s;
    if s.locked {
      var t :| t in s.pcs && s.pcs[t].PuttingBack?;
      s' := Next(lo, hi, s, PutBack(t)).value;
      GoesOn(lo, hi, steps, steps, s, PutBack(t), s');
      all := steps + [PutBack(t)];
    }
  }

  /** Thread t gets the first port, and so does the next one, since the pool no longer refuses. */
  lemma {:induction false} TwoShare(lo: int, n: nat, steps: seq<Step>, s: State, t: nat)
      returns (all: seq<Step>, s': State)
    requires n > 0 && RunAll(lo, lo + n - 1, steps) == Some(s) && |s.race.events| == n && t in s.race.past
    ensures Continues(lo, lo + n - 1, steps, all, s') && !PortsDiffer(s')
  {
    var hi := lo + n - 1;
    OnlyReservations(lo, hi, steps);
    PoolAfterGrants(lo, n, n);
    PoolAfterGrants(lo, n, n + 1);
    all, s' := LockComesBack(lo, hi, steps, s);
    var a := NewId(s'.executors.Keys);
    all, s' := ServerStarts(lo, hi, steps, all, s', t, a);
    assert s'.race.events == Requests(n + 1);
    var u := Above(Busy(s'));
    var asked := s'.(race := s'.race.(past := s'.race.past + {u}));
    GoesOn(lo, hi, steps, all, s', AskPort(u), asked);
    var b := NewId(s'.executors.Keys);
    all, s' := ServerStarts(lo, hi, steps, all + [AskPort(u)], asked, u, b);
    assert s'.executors[a].port == Some(lo) && s'.executors[b].port == Some(lo) && a != b;
  }

  // ---------- a serial daemon is one of the interleavings ----------

  /** No request is under way, and the books are those of the serial daemon. */
  predicate Agrees(lo: int, hi: int, s: State, server: Server)
    requires lo <= hi
  {
    && s.race.past == {} && s.pcs == map[] && !s.locked
    && server == Server(PoolOf(lo, hi, s.race), s.executors, Grants(lo, hi, s.race.events))
  }

  /** Requests served one at a time are a run in which at most one thread is busy. */
  lemma {:induction false} SerialRun(lo: int, hi: int, ops: seq<Operation>) returns (steps: seq<Step>, s: State)
    requires lo <= hi
    ensures RunsTo(lo, hi, steps, s, 1)
    ensures Agrees(lo, hi, s, DoAll(Server(Fresh(lo, hi), map[], []), ops))
  {
    if ops == [] {
      steps, s := [], START;
    } else {
      var server := DoAll(Server(Fresh(lo, hi), map[], []), ops[..|ops| - 1]);
      steps, s := SerialRun(lo, hi, ops[..|ops| - 1]);
      match ops[|ops| - 1]
      case Receiving(id, process, opens) => steps, s := ServerServed(lo, hi, steps, s, server, id, process, opens);
      case Sending(id, process, opens) => steps, s := Registers(lo, hi, steps, s, id, process, opens);
      case KillProcess(id, fails) => steps, s := KillServed(lo, hi, steps, s, server, id, fails);
    }
  }

  /** Thread 0 checks its id, and enters it or gives up. */
  lemma {:induction false} Registers(lo: int, hi: int, steps: seq<Step>, s: State, id: Id, process: nat, opens: bool)
      returns (steps': seq<Step>, s': State)
    requires lo <= hi && RunsTo(lo, hi, steps, s, 1) && s.race.past == {} && !s.locked
    requires s.pcs == map[] || (s.pcs.Keys == {0} && s.pcs[0].Starting?)
    ensures RunsTo(lo, hi, steps', s', 1)
    ensures s' == s.(executors := Register(s.executors, id, Executor(process, PortAt(s, 0)), opens), pcs := map[])
  {
    var executor := Executor(process, PortAt(s, 0));
    var checked := s.(pcs := if id in s.executors then map[] else map[0 := Entering(id, executor)]);
    assert s.pcs - {0} == map[] && s.pcs[0 := Entering(id, executor)] == map[0 := Entering(id, executor)];
    BusyNext(lo, hi, steps, s, CheckId(0, id, process), checked, 1);
    steps', s' := steps + [CheckId(0, id, process)], checked;
    if id !in s.executors {
      steps', s' := Enters(lo, hi, steps', checked, id, executor, opens);
    }
  }

  lemma {:induction false} Enters(lo: int, hi: int, steps: seq<Step>, s: State, id: Id, executor: Executor, opens: bool)
      returns (steps': seq<Step>, s': State)
    requires lo <= hi && RunsTo(lo, hi, steps, s, 1) && s.race.past == {} && !s.locked
    requires s.pcs == map[0 := Entering(id, executor)]
    ensures RunsTo(lo, hi, steps', s', 1)
    ensures s' == s.(executors := if opens then s.executors[id := executor] else s.executors, pcs := map[])
  {
    s' := s.(executors := if opens then s.executors[id := executor] else s.executors, pcs := map[]);
    if opens {
      EnterNext(lo, hi, s, 0, s');
      BusyNext(lo, hi, steps, s, EnterId(0), s', 1);
      steps' := steps + [EnterId(0)];
    } else {
      GiveUpNext(lo, hi, s, 0, s');
      BusyNext(lo, hi, steps, s, GiveUp(0), s', 1);
      steps' := steps + [GiveUp(0)];
    }
  }

  lemma {:induction false} ServerServed(lo: int, hi: int, steps: seq<Step>, s: State, server: Server,
                                        id: Id, process: nat, opens: bool)
      returns (steps': seq<Step>, s': State)
    requires lo <= hi && RunsTo(lo, hi, steps, s, 1) && Agrees(lo, hi, s, server)
    ensures RunsTo(lo, hi, steps', s', 1)
    ensures Agrees(lo, hi, s', Do(server, Receiving(id, process, opens)))
  {
    if Full(server.pool) {
      BusyNext(lo, hi, steps, s, AskPort(0), s, 1);
      steps', s' := steps + [AskPort(0)], s;
    } else {
      steps', s' := PortGranted(lo, hi, steps, s);
      steps', s' := Registers(lo, hi, steps', s', id, process, opens);
      TrailNext(lo, hi, s.race.events, Reservation);
      assert (s.race.events + [Reservation])[..|s.race.events|] == s.race.events;
    }
  }

  lemma {:induction false} PortGranted(lo: int, hi: int, steps: seq<Step>, s: State)
      returns (steps': seq<Step>, s': State)
    requires lo <= hi && RunsTo(lo, hi, steps, s, 1) && s.race.past == {} && s.pcs == map[]
    requires !Full(PoolOf(lo, hi, s.race))
    ensures RunsTo(lo, hi, steps', s', 1)
    ensures s' == s.(race := Race(s.race.events + [Reservation], {}),
                     pcs := map[0 := Starting(Granted(PoolOf(lo, hi, s.race)))])
  {
    var asked := s.(race := Race(s.race.events, {0}));
    s' := s.(race := Race(s.race.events + [Reservation], {}),
             pcs := map[0 := Starting(Granted(PoolOf(lo, hi, s.race)))]);
    BusyNext(lo, hi, steps, s, AskPort(0), asked, 1);
    BusyNext(lo, hi, steps + [AskPort(0)], asked, TakePort(0), s', 1);
    steps' := steps + [AskPort(0)] + [TakePort(0)];
  }

  lemma {:induction false} KillServed(lo: int, hi: int, steps: seq<Step>, s: State, server: Server, id: Id, fails: bool)
      returns (steps': seq<Step>, s': State)
    requires lo <= hi && RunsTo(lo, hi, steps, s, 1) && Agrees(lo, hi, s, server)
    ensures RunsTo(lo, hi, steps', s', 1)
    ensures Agrees(lo, hi, s', Do(server, KillProcess(id, fails)))
  {
    steps' := steps + [Kill(0, id, fails)];
    if id in s.executors && !fails {
      s' := s.(pcs := map[0 := Removing(id, s.executors[id])]);
      BusyNext(lo, hi, steps, s, Kill(0, id, fails), s', 1);
      steps', s' := EntryPutBack(lo, hi, steps', s', id);
    } else {
      s' := s;
      BusyNext(lo, hi, steps, s, Kill(0, id, fails), s, 1);
    }
  }

  lemma {:induction false} EntryPutBack(lo: int, hi: int, steps: seq<Step>, s: State, id: Id)
      returns (steps': seq<Step>, s': State)
    requires lo <= hi && RunsTo(lo, hi, steps, s, 1) && s.race.past == {} && !s.locked
    requires id in s.executors && s.pcs == map[0 := Removing(id, s.executors[id])]
    ensures RunsTo(lo, hi, steps', s', 1)
    ensures s' == s.(executors := (s.executors - {id})[id := s.executors[id]], pcs := map[])
  {
    var pc := PuttingBack(id, s.executors[id]);
    var deleted := s.(executors := s.executors - {id}, locked := true, pcs := map[0 := pc]);
    DeleteNext(lo, hi, s, 0, deleted);
    BusyNext(lo, hi, steps, s, Delete(0), deleted, 1);
    s' := s.(executors := deleted.executors[id := pc.executor], pcs := map[]);
    PutBackNext(lo, hi, deleted, 0, s');
    BusyNext(lo, hi, steps + [Delete(0)], deleted, PutBack(0), s', 1);
    steps' := steps + [Delete(0)] + [PutBack(0)];
  }

  lemma DeleteNext(lo: int, hi: int, s: State, t: nat, s': State)
    requires lo <= hi && t in s.pcs && s.pcs[t].Removing? && !s.locked && s.pcs[t].id in s.executors
    requires s'.race == s.race && s'.locked && s'.pcs == s.pcs[t := PuttingBack(s.pcs[t].id, s.pcs[t].executor)]
    requires s'.executors == s.executors - {s.pcs[t].id}
    ensures Next(lo, hi, s, Delete(t)) == Some(s')
  {
  }

  lemma PutBackNext(lo: int, hi: int, s: State, t: nat, s': State)
    requires lo <= hi && t in s.pcs && s.pcs[t].PuttingBack?
    requires s'.race == s.race && !s'.locked && s'.pcs == s.pcs - {t}
    requires s'.executors == s.executors[s.pcs[t].id := s.pcs[t].executor]
    ensures Next(lo, hi, s, PutBack(t)) == Some(s')
  {
  }

  // ---------- the lock ----------

  predicate Holds(s: State, t: nat) {
    t in s.pcs && s.pcs[t].PuttingBack?
  }

  /** The lock is held by one thread, or free. */
  ghost predicate OneHolder(s: State) {
    && (s.locked <==> exists t :: Holds(s, t))
    && forall t, u :: Holds(s, t) && Holds(s, u) ==> t == u
  }

  /** In every interleaving the lock has at most one holder. As long as it has one, only that
      thread's step frees it or changes the executors, and what it puts back is what it deleted. */
  lemma {:induction false} LockExcludes(lo: int, hi: int, steps: seq<Step>, step: Step)
    requires lo <= hi && RunAll(lo, hi, steps + [step]).Some?
    ensures RunAll(lo, hi, steps).Some? && OneHolder(RunAll(lo, hi, steps).value)
    ensures var s, s' := RunAll(lo, hi, steps).value, RunAll(lo, hi, steps + [step]).value;
            forall t :: Holds(s, t) && step.thread != t ==> Holds(s', t) && s'.locked && s'.executors == s.executors
    ensures var s, s' := RunAll(lo, hi, steps).value, RunAll(lo, hi, steps + [step]).value;
            forall t :: Holds(s, t) && step.thread == t ==>
              && !s'.locked
              && s'.executors == s.executors[s.pcs[t].id := s.pcs[t].executor]
              && t !in Busy(s')
  {
    assert (steps + [step])[..|steps|] == steps;
    RunIsWellFormed(lo, hi, steps);
    RunHasOneHolder(lo, hi, steps);
    var s := RunAll(lo, hi, steps).value;
    forall t | Holds(s, t)
      ensures var s' := RunAll(lo, hi, steps + [step]).value;
              if step.thread != t then Holds(s', t) && s'.locked && s'.executors == s.executors
              else !s'.locked && s'.executors == s.executors[s.pcs[t].id := s.pcs[t].executor] && t !in Busy(s')
    {
      LockedStep(lo, hi, s, step, t);
    }
  }

  lemma {:induction false} LockedStep(lo: int, hi: int, s: State, step: Step, t: nat)
    requires lo <= hi && WellFormed(s) && OneHolder(s) && Holds(s, t) && Next(lo, hi, s, step).Some?
    ensures var s' := Next(lo, hi, s, step).value;
            if step.thread != t then Holds(s', t) && s'.locked && s'.executors == s.executors
            else !s'.locked && s'.executors == s.executors[s.pcs[t].id := s.pcs[t].executor] && t !in Busy(s')
  {
    assert s.locked;
    assert step.PutBack? ==> Holds(s, step.thread);
  }

  lemma {:induction false} RunHasOneHolder(lo: int, hi: int, steps: seq<Step>)
    requires lo <= hi && RunAll(lo, hi, steps).Some?
    ensures OneHolder(RunAll(lo, hi, steps).value)
  {
    if steps != [] {
      var front := steps[..|steps| - 1];
      RunHasOneHolder(lo, hi, front);
      NextHasOneHolder(lo, hi, RunAll(lo, hi, front).value, steps[|steps| - 1]);
    }
  }

  lemma {:induction false} NextHasOneHolder(lo: int, hi: int, s: State, step: Step)
    requires lo <= hi && OneHolder(s) && Next(lo, hi, s, step).Some?
    ensures OneHolder(Next(lo, hi, s, step).value)
  {
    var s' := Next(lo, hi, s, step).value;
    assert forall t :: t != step.thread ==> (Holds(s', t) <==> Holds(s, t));
    if s.locked {
      var t :| Holds(s, t);
      assert step.thread != t ==> Holds(s', t);
      assert step.PutBack? ==> Holds(s, step.thread);
    } else if s'.locked {
      assert Holds(s', step.thread);
    }
  }

  /** A request for a known id ends without registering anything, a failing kill has no effect. */
  lemma {:induction false} RefusalsChangeNothing(lo: int, hi: int, s: State, t: nat, id: Id, process: nat)
    requires lo <= hi && WellFormed(s)
    ensures id in s.executors && Next(lo, hi, s, CheckId(t, id, process)).Some? ==>
              var s' := Next(lo, hi, s, CheckId(t, id, process)).value;
              s'.executors == s.executors && s'.race == s.race && s'.locked == s.locked && t !in Busy(s')
    ensures Next(lo, hi, s, Kill(t, id, true)).Some? ==> Next(lo, hi, s, Kill(t, id, true)).value == s
  {
  }
}
