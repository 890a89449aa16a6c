/** Runs of the load test as a whole: they cannot get stuck, they end, and the driver that first
    serves and then cleans up every id leaves nothing behind except what it could not kill. */
module PortRuns {
  import opened Text
  import opened PortService

  predicate AllDone(s: State) {
    forall t :: 0 <= t < |s.pcs| ==> s.pcs[t].Done?
  }

  // ---------- deadlock freedom ----------

  /** Thread u can make a step, whatever the outside does. */
  predicate CanMove(range: seq<int>, jobs: seq<Job>, s: State, u: nat) {
    Step(range, jobs, s, Move(u, true)).Some? && Step(range, jobs, s, Move(u, false)).Some?
  }

  /** If thread t is not done, it can move, or the holder of the lock it waits for can. */
  lemma {:induction false} SomeoneMoves(range: seq<int>, jobs: seq<Job>, s: State, t: nat) returns (u: nat)
    requires LocksFit(s) && LockHoldersExist(s) && t < |jobs| == |s.pcs| && !s.pcs[t].Done?
    ensures u < |jobs| && CanMove(range, jobs, s, u)
    ensures u == t || InPorts(s.pcs[u]) || InExecs(s.pcs[u])
  {
    u := t;
    if Next(range, jobs[t], s, t, true) == None {
      if s.pcs[t].AwaitAdd? || s.pcs[t].AwaitRemove? {
        u := s.execsLock.value;
        assert InExecs(s.pcs[u]);
      } else {
        u := s.portsLock.value;
        assert InPorts(s.pcs[u]);
      }
    }
  }

  lemma {:induction false} OneLockEach(s: State)
    requires LocksFit(s) && LockHoldersExist(s)
    ensures s.portsLock.Some? ==> s.portsLock != s.execsLock
  {
    forall t | 0 <= t < |s.pcs| ensures !(s.portsLock == Some(t) && s.execsLock == Some(t)) {
      assert !(InPorts(s.pcs[t]) && InExecs(s.pcs[t]));
    }
  }

  /** In every reachable state of any jobs no thread holds both locks, and unless all threads
      are done one of them can move, whatever the outside does; then both locks are free. */
  lemma {:induction false} NoDeadlock(range: seq<int>, jobs: seq<Job>, moves: seq<Move>)
    requires Run(range, jobs, moves).Some?
    ensures var s := Run(range, jobs, moves).value;
            && (s.portsLock.Some? ==> s.portsLock != s.execsLock)
            && (if AllDone(s) then Idle(s) else exists u :: CanMove(range, jobs, s, u))
  {
    RunKeepsLocks(range, jobs, moves);
    var s := Run(range, jobs, moves).value;
    OneLockEach(s);
    UnlessDone(range, jobs, s);
  }

  predicate Idle(s: State) {
    s.portsLock == None && s.execsLock == None
  }

  lemma {:induction false} UnlessDone(range: seq<int>, jobs: seq<Job>, s: State)
    requires LocksFit(s) && LockHoldersExist(s) && |jobs| == |s.pcs|
    ensures if AllDone(s) then Idle(s) else exists u :: CanMove(range, jobs, s, u)
  {
    if !AllDone(s) {
      var t :| 0 <= t < |s.pcs| && !s.pcs[t].Done?;
      var u := SomeoneMoves(range, jobs, s, t);
    }
  }

  // ---------- termination ----------

  const LONGEST := 11

  /** At most how many steps a thread still takes. */
  function Rank(pc: Pc): nat {
    match pc
    case Start => LONGEST
    case Search => 10
    case Reserved(_) => 9
    case Execute(_) => 8
    case Check(_) => 7
    case Kill(_) => 7
    case AwaitAdd(_) => 6
    case AwaitRemove(_) => 6
    case Adding(_) => 5
    case Removing(_) => 5
    case Removed(_) => 4
    case AwaitRelease(_) => 3
    case Releasing(_) => 2
    case Released => 1
    case Exhausted => 1
    case Added => 1
    case Done(_) => 0
  }

  function TotalRank(pcs: seq<Pc>): nat {
    if pcs == [] then 0 else Rank(pcs[0]) + TotalRank(pcs[1..])
  }

  lemma {:induction false} TotalRankOfUpdate(pcs: seq<Pc>, t: nat, pc: Pc)
    requires t < |pcs|
    ensures TotalRank(pcs[t := pc]) == TotalRank(pcs) - Rank(pcs[t]) + Rank(pc)
  {
    if t > 0 {
      assert pcs[t := pc][1..] == pcs[1..][t - 1 := pc];
      TotalRankOfUpdate(pcs[1..], t - 1, pc);
    } else {
      assert pcs[t := pc][1..] == pcs[1..];
    }
  }

  lemma {:induction false} StepLowersRank(range: seq<int>, jobs: seq<Job>, s: State, m: Move)
    requires Step(range, jobs, s, m).Some?
    ensures TotalRank(Step(range, jobs, s, m).value.pcs) < TotalRank(s.pcs)
  {
    var s' := Step(range, jobs, s, m).value;
    NextLocks(range, jobs[m.thread], s, m.thread, m.works);
    RankFalls(range, jobs[m.thread], s, m.thread, m.works);
    TotalRankOfUpdate(s.pcs, m.thread, s'.pcs[m.thread]);
  }

  lemma {:induction false} RankFalls(range: seq<int>, job: Job, s: State, t: nat, works: bool)
    requires t < |s.pcs| && Next(range, job, s, t, works).Some?
    ensures t < |Next(range, job, s, t, works).value.pcs|
    ensures Rank(Next(range, job, s, t, works).value.pcs[t]) < Rank(s.pcs[t])
  {
  }

  lemma {:induction false} InitialRank(n: nat)
    ensures TotalRank(seq(n, _ => Start)) == LONGEST * n
  {
    if n > 0 {
      InitialRank(n - 1);
      assert seq(n, _ => Start)[1..] == seq(n - 1, _ => Start);
    }
  }

  /** Every run of n threads has at most 11 n steps. */
  lemma {:induction false} RunsAreBounded(range: seq<int>, jobs: seq<Job>, moves: seq<Move>)
    requires Run(range, jobs, moves).Some?
    ensures |moves| + TotalRank(Run(range, jobs, moves).value.pcs) <= LONGEST * |jobs|
  {
    if moves == [] {
      InitialRank(|jobs|);
    } else {
      var front := moves[..|moves| - 1];
      RunsAreBounded(range, jobs, front);
      StepLowersRank(range, jobs, Run(range, jobs, front).value, moves[|moves| - 1]);
    }
  }

  // ---------- the two-phase driver ----------

  predicate DistinctIds(ids: seq<Id>) {
    forall i, j :: 0 <= i < j < |ids| ==> ids[i] != ids[j]
  }

  /** One service thread and one cleanUp thread per id. */
  function DriverJobs(ids: seq<Id>): seq<Job> {
    seq(|ids|, i requires 0 <= i < |ids| => Service(ids[i])) + seq(|ids|, i requires 0 <= i < |ids| => CleanUp(ids[i]))
  }

  predicate Served(s: State, n: nat) {
    forall t :: 0 <= t < n && t < |s.pcs| ==> s.pcs[t].Done?
  }

  /** A run of the driver: cleanUp threads move only after all service threads have finished. */
  function Drive(range: seq<int>, ids: seq<Id>, moves: seq<Move>): Option<State> {
    if moves == [] then Some(Initial(2 * |ids|))
    else
      match Drive(range, ids, moves[..|moves| - 1])
      case None => None
      case Some(s) =>
        var m := moves[|moves| - 1];
        if m.thread < |ids| || Served(s, |ids|) then Step(range, DriverJobs(ids), s, m) else None
  }

  lemma {:induction false} DriveIsRun(range: seq<int>, ids: seq<Id>, moves: seq<Move>)
    requires Drive(range, ids, moves).Some?
    ensures Run(range, DriverJobs(ids), moves) == Drive(range, ids, moves)
  {
    if moves != [] {
      DriveIsRun(range, ids, moves[..|moves| - 1]);
    }
  }

  lemma {:induction false} DriverJobsAreHarmless(range: seq<int>, ids: seq<Id>)
    requires DistinctIds(ids)
    ensures Harmless(range, DriverJobs(ids))
  {
  }

  /** Where the cleanUp of id stands decides whether the registry still holds the id. */
  predicate CleanUpStands(s: State, id: Id, pc: Pc) {
    && (pc.Removed? || pc.AwaitRelease? || pc.Releasing? || pc.Released? || pc == Done(Missing) || pc == Done(Cleaned)
        ==> id !in s.executors)
    && (pc == Done(NotKilled) ==> id in s.executors)
  }

  ghost predicate PhaseInv(ids: seq<Id>, s: State) {
    && |s.pcs| == 2 * |ids|
    && (!Served(s, |ids|) ==> forall t :: |ids| <= t < |s.pcs| ==> s.pcs[t] == Start)
    && (forall t :: |ids| <= t < |s.pcs| ==> CleanUpStands(s, ids[t - |ids|], s.pcs[t]))
  }

  lemma {:induction false} CleanUpStandsAfter(range: seq<int>, id: Id, s: State, t: nat, works: bool)
    requires t < |s.pcs| && ThreadFits(range, s, CleanUp(id), s.pcs[t]) && CleanUpStands(s, id, s.pcs[t])
    requires Next(range, CleanUp(id), s, t, works).Some?
    ensures var s' := Next(range, CleanUp(id), s, t, works).value;
            && OnlyMoves(s, s', t) && CleanUpStands(s', id, s'.pcs[t])
            && (s'.executors == s.executors || s'.executors == s.executors - {id})
  {
  }

  lemma {:induction false} ServiceStep(range: seq<int>, id: Id, s: State, t: nat, works: bool)
    requires t < |s.pcs| && Next(range, Service(id), s, t, works).Some?
    ensures OnlyMoves(s, Next(range, Service(id), s, t, works).value, t) && !s.pcs[t].Done?
  {
  }

  lemma {:induction false} ServiceKeepsPhases(range: seq<int>, ids: seq<Id>, s: State, m: Move)
    requires PhaseInv(ids, s) && m.thread < |ids| && Step(range, DriverJobs(ids), s, m).Some?
    ensures PhaseInv(ids, Step(range, DriverJobs(ids), s, m).value)
  {
    var n, t := |ids|, m.thread;
    var s' := Step(range, DriverJobs(ids), s, m).value;
    assert DriverJobs(ids)[t] == Service(ids[t]);
    ServiceStep(range, ids[t], s, t, m.works);
    forall u | n <= u < |s'.pcs| ensures s'.pcs[u] == Start {
      assert s'.pcs[u] == s.pcs[u];
    }
  }

  lemma {:induction false} CleanUpKeepsPhases(range: seq<int>, ids: seq<Id>, s: State, m: Move)
    requires DistinctIds(ids) && ThreadsFit(range, DriverJobs(ids), s) && PhaseInv(ids, s)
    requires |ids| <= m.thread && Served(s, |ids|) && Step(range, DriverJobs(ids), s, m).Some?
    ensures PhaseInv(ids, Step(range, DriverJobs(ids), s, m).value)
  {
    var t := m.thread;
    var id := ids[t - |ids|];
    CleanUpThread(range, ids, s, t);
    assert Step(range, DriverJobs(ids), s, m) == Next(range, CleanUp(id), s, t, m.works);
    CleanUpStandsAfter(range, id, s, t, m.works);
    OthersStand(ids, s, Step(range, DriverJobs(ids), s, m).value, t);
  }

  lemma {:induction false} CleanUpThread(range: seq<int>, ids: seq<Id>, s: State, t: nat)
    requires ThreadsFit(range, DriverJobs(ids), s) && PhaseInv(ids, s) && |ids| <= t < |s.pcs|
    ensures var id := ids[t - |ids|];
            && DriverJobs(ids)[t] == CleanUp(id)
            && ThreadFits(range, s, CleanUp(id), s.pcs[t]) && CleanUpStands(s, id, s.pcs[t])
  {
    assert ThreadFits(range, s, DriverJobs(ids)[t], s.pcs[t]);
  }

  lemma {:induction false} OthersStand(ids: seq<Id>, s: State, s': State, t: nat)
    requires DistinctIds(ids) && PhaseInv(ids, s) && Served(s, |ids|) && OnlyMoves(s, s', t) && |ids| <= t
    requires CleanUpStands(s', ids[t - |ids|], s'.pcs[t])
    requires s'.executors == s.executors || s'.executors == s.executors - {ids[t - |ids|]}
    ensures PhaseInv(ids, s')
  {
    var n := |ids|;
    forall u | n <= u < |s'.pcs| ensures CleanUpStands(s', ids[u - n], s'.pcs[u]) {
      if u != t {
        assert s'.pcs[u] == s.pcs[u] && ids[u - n] != ids[t - n];
        assert CleanUpStands(s, ids[u - n], s.pcs[u]);
      }
    }
    forall i | 0 <= i < n ensures s'.pcs[i].Done? {
      assert s'.pcs[i] == s.pcs[i];
    }
  }

  lemma {:induction false} DriveKeepsPhases(range: seq<int>, ids: seq<Id>, moves: seq<Move>)
    requires DistinctIds(ids) && Drive(range, ids, moves).Some?
    ensures PhaseInv(ids, Drive(range, ids, moves).value) && Inv(range, DriverJobs(ids), Drive(range, ids, moves).value)
  {
    DriverJobsAreHarmless(range, ids);
    DriveIsRun(range, ids, moves);
    RunKeepsInv(range, DriverJobs(ids), moves);
    if moves != [] {
      var m := moves[|moves| - 1];
      var s := Drive(range, ids, moves[..|moves| - 1]).value;
      DriveKeepsPhases(range, ids, moves[..|moves| - 1]);
      if m.thread < |ids| {
        ServiceKeepsPhases(range, ids, s, m);
      } else {
        CleanUpKeepsPhases(range, ids, s, m);
      }
    }
  }

  /** The ids whose kill failed. */
  function Unkilled(ids: seq<Id>, s: State): set<Id>
    requires |s.pcs| == 2 * |ids|
  {
    set t | |ids| <= t < |s.pcs| && s.pcs[t] == Done(NotKilled) :: ids[t - |ids|]
  }

  /** No leak: when the driver has finished, whatever mix of successes, failed starts and
      exhausted ports there was, the executors left are those whose kill failed, and the ports
      left are theirs; both are gone exactly when every kill succeeded. */
  lemma {:induction false} NothingLeaks(range: seq<int>, ids: seq<Id>, moves: seq<Move>)
    requires DistinctIds(ids) && Drive(range, ids, moves).Some? && AllDone(Drive(range, ids, moves).value)
    ensures var s := Drive(range, ids, moves).value;
            && |s.pcs| == 2 * |ids|
            && s.executors.Keys == Unkilled(ids, s) && s.taken == s.executors.Values
            && (s.taken == {} && s.executors == map[] <==> Unkilled(ids, s) == {})
  {
    DriveKeepsPhases(range, ids, moves);
    var s := Drive(range, ids, moves).value;
    LeftoverIds(range, ids, s);
    QuietPorts(s);
    EmptyTogether(s.executors);
  }

  lemma EmptyTogether(m: map<Id, int>)
    ensures m.Keys == {} <==> m == map[]
    ensures m == map[] ==> m.Values == {}
  {
    if m.Keys == {} {
      assert forall id :: id in m ==> id in m.Keys;
    }
  }

  lemma {:induction false} LeftoverIds(range: seq<int>, ids: seq<Id>, s: State)
    requires ThreadsFit(range, DriverJobs(ids), s) && PhaseInv(ids, s) && AllDone(s)
    ensures s.executors.Keys == Unkilled(ids, s)
  {
    forall id | id in s.executors ensures id in Unkilled(ids, s) {
      LeftoverId(range, ids, s, id);
    }
    forall t | |ids| <= t < |s.pcs| && s.pcs[t] == Done(NotKilled) ensures ids[t - |ids|] in s.executors {
      assert CleanUpStands(s, ids[t - |ids|], s.pcs[t]);
    }
  }

  lemma {:induction false} LeftoverId(range: seq<int>, ids: seq<Id>, s: State, id: Id)
    requires ThreadsFit(range, DriverJobs(ids), s) && PhaseInv(ids, s) && AllDone(s) && id in s.executors
    ensures id in Unkilled(ids, s)
  {
    var i := ServedAt(range, ids, id);
    var t := |ids| + i;
    assert DriverJobs(ids)[t] == CleanUp(id);
    assert ThreadFits(range, s, DriverJobs(ids)[t], s.pcs[t]) && CleanUpStands(s, ids[t - |ids|], s.pcs[t]);
    assert s.pcs[t].Done?;
  }

  lemma {:induction false} ServedAt(range: seq<int>, ids: seq<Id>, id: Id) returns (i: nat)
    requires !Barren(range, DriverJobs(ids), id)
    ensures i < |ids| && ids[i] == id
  {
    i :| 0 <= i < |DriverJobs(ids)| && DriverJobs(ids)[i] == Service(id);
  }

  /** No thread is under way. */
  predicate Quiet(s: State) {
    forall t :: 0 <= t < |s.pcs| ==> s.pcs[t].Done? || s.pcs[t].Start?
  }

  /** When no thread holds a port, the ports taken are those of the registered executors. */
  lemma {:induction false} QuietPorts(s: State)
    requires Quiet(s) && exists owner :: Owned(s, owner)
    ensures s.taken == s.executors.Values
  {
    var owner: map<int, Owner> :| Owned(s, owner);
    forall t | 0 <= t < |s.pcs| ensures Held(s.pcs[t]) == None {
      assert s.pcs[t].Done? || s.pcs[t].Start?;
    }
    forall p | p in s.taken ensures p in s.executors.Values {
      assert owner[p].Registry?;
      assert s.executors[owner[p].id] == p;
    }
    forall p | p in s.executors.Values ensures p in s.taken {
      var id :| id in s.executors && s.executors[id] == p;
    }
  }

  /** Thread u may make the driver's next step, whatever the outside does. */
  predicate MayMove(range: seq<int>, ids: seq<Id>, moves: seq<Move>, u: nat) {
    Drive(range, ids, moves + [Move(u, true)]).Some? && Drive(range, ids, moves + [Move(u, false)]).Some?
  }

  lemma {:induction false} DriveNext(range: seq<int>, ids: seq<Id>, moves: seq<Move>, s: State, m: Move)
    requires Drive(range, ids, moves) == Some(s) && (m.thread < |ids| || Served(s, |ids|))
    ensures Drive(range, ids, moves + [m]) == Step(range, DriverJobs(ids), s, m)
  {
    assert (moves + [m])[..|moves|] == moves;
  }

  /** The driver never gets stuck either: until all its threads are done, one may move. */
  lemma {:induction false} DriverMoves(range: seq<int>, ids: seq<Id>, moves: seq<Move>)
    requires DistinctIds(ids) && Drive(range, ids, moves).Some?
    ensures AllDone(Drive(range, ids, moves).value) || exists u: nat :: MayMove(range, ids, moves, u)
  {
    var s := Drive(range, ids, moves).value;
    if !AllDone(s) {
      DriveKeepsPhases(range, ids, moves);
      var u := AllowedMove(range, ids, s);
      DriveNext(range, ids, moves, s, Move(u, true));
      DriveNext(range, ids, moves, s, Move(u, false));
      assert MayMove(range, ids, moves, u);
    }
  }

  lemma {:induction false} AllowedMove(range: seq<int>, ids: seq<Id>, s: State) returns (u: nat)
    requires LocksFit(s) && LockHoldersExist(s) && PhaseInv(ids, s) && !AllDone(s)
    ensures CanMove(range, DriverJobs(ids), s, u) && (u < |ids| || Served(s, |ids|))
  {
    var n := |ids|;
    var t: nat;
    if Served(s, n) {
      t :| 0 <= t < |s.pcs| && !s.pcs[t].Done?;
    } else {
      t :| 0 <= t < n && t < |s.pcs| && !s.pcs[t].Done?;
    }
    u := SomeoneMoves(range, DriverJobs(ids), s, t);
    assert !Served(s, n) ==> forall v :: n <= v < |s.pcs| ==> !InPorts(s.pcs[v]) && !InExecs(s.pcs[v]);
  }

  // ---------- what the outside does decides the outcome ----------

  /** All moves of thread t are made with the outside working, or all without. */
  predicate AllMoves(moves: seq<Move>, t: nat, works: bool) {
    forall i :: 0 <= i < |moves| && moves[i].thread == t ==> moves[i].works == works
  }

  /** Some move of thread t is made with the outside working. */
  predicate Worked(moves: seq<Move>, t: nat) {
    exists i :: 0 <= i < |moves| && moves[i].thread == t && moves[i].works
  }

  /** The places a thread gets to only after its process was started, or its executor killed. */
  predicate PastWorking(job: Job, pc: Pc) {
    || pc.Check? || pc.AwaitAdd? || pc.Adding? || pc.Added? || pc.AwaitRemove? || pc.Removing? || pc.Removed?
    || pc == Done(Registered) || pc == Done(Duplicate) || pc == Done(Cleaned)
    || (job.CleanUp? && (pc.AwaitRelease? || pc.Releasing? || pc.Released?))
  }

  /** ... and only after that failed. */
  predicate PastFailing(job: Job, pc: Pc) {
    || pc == Done(NotStarted) || pc == Done(NotKilled)
    || (job.Service? && (pc.AwaitRelease? || pc.Releasing? || pc.Released?))
  }

  /** Where a service and a cleanUp can stand at all. */
  predicate OwnPc(job: Job, pc: Pc) {
    match job
    case Service(_) => ServicePc(pc) || pc == Done(Duplicate)
    case CleanUp(_) => CleanUpPc(pc)
  }

  lemma {:induction false} NextPast(range: seq<int>, job: Job, s: State, t: nat, works: bool)
    requires t < |s.pcs| && OwnPc(job, s.pcs[t]) && Next(range, job, s, t, works).Some?
    ensures var s' := Next(range, job, s, t, works).value;
            && OnlyMoves(s, s', t) && OwnPc(job, s'.pcs[t])
            && (PastWorking(job, s'.pcs[t]) ==> PastWorking(job, s.pcs[t]) || works)
            && (PastFailing(job, s'.pcs[t]) ==> PastFailing(job, s.pcs[t]) || !works)
            && (s'.executors == s.executors || s'.executors == s.executors - {job.id}
                || (job.Service? && s.pcs[t].Adding? && s'.executors == s.executors[job.id := s.pcs[t].port]))
  {
  }

  ghost predicate OutcomesFit(jobs: seq<Job>, moves: seq<Move>, s: State) {
    && |s.pcs| == |jobs|
    && (forall t :: 0 <= t < |jobs| ==>
          && OwnPc(jobs[t], s.pcs[t])
          && (AllMoves(moves, t, false) ==> !PastWorking(jobs[t], s.pcs[t]))
          && (AllMoves(moves, t, true) ==> !PastFailing(jobs[t], s.pcs[t])))
    && (forall id :: id in s.executors ==> exists t :: 0 <= t < |jobs| && jobs[t] == Service(id) && Worked(moves, t))
  }

  lemma {:induction false} RunFitsOutcomes(range: seq<int>, jobs: seq<Job>, moves: seq<Move>)
    requires Run(range, jobs, moves).Some?
    ensures OutcomesFit(jobs, moves, Run(range, jobs, moves).value)
  {
    if moves != [] {
      var front, m := moves[..|moves| - 1], moves[|moves| - 1];
      var s := Run(range, jobs, front).value;
      RunFitsOutcomes(range, jobs, front);
      NextPast(range, jobs[m.thread], s, m.thread, m.works);
      var s' := Run(range, jobs, moves).value;
      forall t | 0 <= t < |jobs|
        ensures OwnPc(jobs[t], s'.pcs[t])
        ensures AllMoves(moves, t, false) ==> !PastWorking(jobs[t], s'.pcs[t])
        ensures AllMoves(moves, t, true) ==> !PastFailing(jobs[t], s'.pcs[t])
      {
        MovesInFront(moves, t);
        assert t != m.thread ==> s'.pcs[t] == s.pcs[t];
      }
      forall id | id in s'.executors ensures exists t :: 0 <= t < |jobs| && jobs[t] == Service(id) && Worked(moves, t) {
        EntryWorked(jobs, moves, s, s', id);
      }
    }
  }

  lemma {:induction false} MovesInFront(moves: seq<Move>, t: nat)
    requires moves != []
    ensures var front, m := moves[..|moves| - 1], moves[|moves| - 1];
            && (forall works :: AllMoves(moves, t, works) <==>
                  AllMoves(front, t, works) && (m.thread == t ==> m.works == works))
            && (Worked(moves, t) <==> Worked(front, t) || (m.thread == t && m.works))
            && (!Worked(moves, t) <==> AllMoves(moves, t, false))
  {
    var front, m := moves[..|moves| - 1], moves[|moves| - 1];
    forall works ensures AllMoves(moves, t, works) <==>
                         AllMoves(front, t, works) && (m.thread == t ==> m.works == works) {
      if AllMoves(moves, t, works) {
        forall i | 0 <= i < |front| && front[i].thread == t ensures front[i].works == works {
          assert front[i] == moves[i];
        }
      }
      assert forall i :: 0 <= i < |front| ==> moves[i] == front[i];
    }
    if Worked(front, t) {
      var i :| 0 <= i < |front| && front[i].thread == t && front[i].works;
      assert moves[i] == front[i];
    }
  }

  lemma {:induction false} EntryWorked(jobs: seq<Job>, moves: seq<Move>, s: State, s': State, id: Id)
    requires moves != [] && moves[|moves| - 1].thread < |jobs| == |s.pcs| && id in s'.executors
    requires OutcomesFit(jobs, moves[..|moves| - 1], s)
    requires var t := moves[|moves| - 1].thread;
             || s'.executors == s.executors || s'.executors == s.executors - {jobs[t].id}
             || (jobs[t].Service? && s.pcs[t].Adding? && s'.executors == s.executors[jobs[t].id := s.pcs[t].port])
    ensures exists t :: 0 <= t < |jobs| && jobs[t] == Service(id) && Worked(moves, t)
  {
    var front, u := moves[..|moves| - 1], moves[|moves| - 1].thread;
    if id in s.executors {
      var t :| 0 <= t < |jobs| && jobs[t] == Service(id) && Worked(front, t);
      MovesInFront(moves, t);
      assert Worked(moves, t);
    } else {
      assert PastWorking(jobs[u], s.pcs[u]) && !AllMoves(front, u, false);
      var i :| 0 <= i < |front| && front[i].thread == u && front[i].works;
      assert moves[i] == front[i];
      assert Worked(moves, u);
    }
  }

  /** In every run of any jobs: a service whose process is not started is never registered, and a
      cleanUp whose kill fails never cleans up; a service whose process is started never gives
      up, and a cleanUp whose kill succeeds never does; and an id is registered only if a
      process was started for it. */
  lemma {:induction false} OutcomeFollowsOutside(range: seq<int>, jobs: seq<Job>, moves: seq<Move>, t: nat)
    requires Run(range, jobs, moves).Some? && t < |jobs|
    ensures var s := Run(range, jobs, moves).value;
            && t < |s.pcs|
            && (AllMoves(moves, t, false) ==> s.pcs[t] != Done(Registered) && s.pcs[t] != Done(Cleaned))
            && (AllMoves(moves, t, true) ==> s.pcs[t] != Done(NotStarted) && s.pcs[t] != Done(NotKilled))
            && forall id :: id in s.executors ==>
                 exists i :: 0 <= i < |moves| && moves[i].works && moves[i].thread < |jobs| &&
                             jobs[moves[i].thread] == Service(id)
  {
    RunFitsOutcomes(range, jobs, moves);
    var s := Run(range, jobs, moves).value;
    forall id | id in s.executors
      ensures exists i :: 0 <= i < |moves| && moves[i].works && moves[i].thread < |jobs| &&
                          jobs[moves[i].thread] == Service(id)
    {
      var u :| 0 <= u < |jobs| && jobs[u] == Service(id) && Worked(moves, u);
      var i :| 0 <= i < |moves| && moves[i].thread == u && moves[i].works;
    }
  }

  /** When all threads of harmless jobs have ended, the ports taken are those of the registered
      executors, so that the port of a start that failed is free again. */
  lemma {:induction false} FailedStartFreesItsPort(range: seq<int>, jobs: seq<Job>, moves: seq<Move>)
    requires Harmless(range, jobs) && Run(range, jobs, moves).Some?
    requires Quiet(Run(range, jobs, moves).value)
    ensures var s := Run(range, jobs, moves).value;
            && s.taken == s.executors.Values
            && ((forall i :: 0 <= i < |moves| ==> !moves[i].works) ==> s.taken == {} && s.executors == map[])
  {
    RunKeepsInv(range, jobs, moves);
    var s := Run(range, jobs, moves).value;
    QuietPorts(s);
    RunFitsOutcomes(range, jobs, moves);
    if forall i :: 0 <= i < |moves| ==> !moves[i].works {
      forall id ensures id !in s.executors {
      }
      EmptyTogether(s.executors);
    }
  }

  /** The driver leaves nothing behind if every start and every kill works. */
  lemma {:induction false} AllWorkingLeavesNothing(range: seq<int>, ids: seq<Id>, moves: seq<Move>)
    requires DistinctIds(ids) && Drive(range, ids, moves).Some? && AllDone(Drive(range, ids, moves).value)
    requires forall i :: |ids| <= i < 2 * |ids| ==> AllMoves(moves, i, true)
    ensures Drive(range, ids, moves).value.taken == {} && Drive(range, ids, moves).value.executors == map[]
  {
    NothingLeaks(range, ids, moves);
    DriveIsRun(range, ids, moves);
    RunFitsOutcomes(range, DriverJobs(ids), moves);
    var s := Drive(range, ids, moves).value;
    forall t | |ids| <= t < |s.pcs| ensures s.pcs[t] != Done(NotKilled) {
      assert AllMoves(moves, t, true);
    }
  }

  // ---------- which jobs share a port ----------

  lemma {:induction false} Advance(range: seq<int>, jobs: seq<Job>, moves: seq<Move>, s: State, t: nat)
      returns (moves': seq<Move>, s': State)
    requires Run(range, jobs, moves) == Some(s)
    requires Step(range, jobs, s, Move(t, true)).Some?
    ensures moves' == moves + [Move(t, true)] && s' == Step(range, jobs, s, Move(t, true)).value
    ensures Run(range, jobs, moves') == Some(s')
  {
    moves' := moves + [Move(t, true)];
    s' := Step(range, jobs, s, Move(t, true)).value;
    assert moves'[..|moves|] == moves;
  }

  lemma {:induction false} AdvanceFailing(range: seq<int>, jobs: seq<Job>, moves: seq<Move>, s: State, t: nat)
      returns (moves': seq<Move>, s': State)
    requires Run(range, jobs, moves) == Some(s)
    requires Step(range, jobs, s, Move(t, false)).Some?
    ensures moves' == moves + [Move(t, false)] && s' == Step(range, jobs, s, Move(t, false)).value
    ensures Run(range, jobs, moves') == Some(s')
  {
    moves' := moves + [Move(t, false)];
    s' := Step(range, jobs, s, Move(t, false)).value;
    assert moves'[..|moves|] == moves;
  }

  /** A service thread runs alone, up to its process being started. */
  lemma {:induction false} ServiceReserves(range: seq<int>, jobs: seq<Job>, moves: seq<Move>, s: State, t: nat, p: int)
      returns (moves': seq<Move>, s': State)
    requires Run(range, jobs, moves) == Some(s) && Idle(s)
    requires t < |jobs| == |s.pcs| && jobs[t].Service? && s.pcs[t] == Start && FirstFree(range, s.taken) == Some(p)
    ensures Run(range, jobs, moves') == Some(s')
    ensures s' == s.(taken := s.taken + {p}, pcs := s.pcs[t := Execute(p)])
  {
    moves', s' := Advance(range, jobs, moves, s, t);
    moves', s' := Advance(range, jobs, moves', s', t);
    moves', s' := Advance(range, jobs, moves', s', t);
  }

  /** ... on to the lock, ... */
  lemma {:induction false} ServiceAdds(range: seq<int>, jobs: seq<Job>, moves: seq<Move>, s: State, t: nat, p: int)
      returns (moves': seq<Move>, s': State)
    requires Run(range, jobs, moves) == Some(s) && Idle(s)
    requires t < |jobs| == |s.pcs| && jobs[t].Service? && s.pcs[t] == Execute(p) && jobs[t].id !in s.executors
    ensures Run(range, jobs, moves') == Some(s')
    ensures s' == s.(execsLock := Some(t), pcs := s.pcs[t := Adding(p)])
  {
    moves', s' := Advance(range, jobs, moves, s, t);
    moves', s' := Advance(range, jobs, moves', s', t);
    moves', s' := Advance(range, jobs, moves', s', t);
  }

  /** ... and on to its registration. */
  lemma {:induction false} ServiceRegisters(range: seq<int>, jobs: seq<Job>, moves: seq<Move>, s: State, t: nat, p: int)
      returns (moves': seq<Move>, s': State)
    requires Run(range, jobs, moves) == Some(s) && Idle(s)
    requires t < |jobs| == |s.pcs| && jobs[t].Service? && s.pcs[t] == Execute(p) && jobs[t].id !in s.executors
    ensures Run(range, jobs, moves') == Some(s')
    ensures s' == s.(executors := s.executors[jobs[t].id := p], pcs := s.pcs[t := Done(Registered)])
  {
    moves', s' := ServiceAdds(range, jobs, moves, s, t, p);
    moves', s' := Advance(range, jobs, moves', s', t);
    moves', s' := Advance(range, jobs, moves', s', t);
  }

  /** A service thread alone whose process does not start gives its port back. */
  lemma {:induction false} ServiceGivesUp(range: seq<int>, jobs: seq<Job>, moves: seq<Move>, s: State, t: nat, p: int)
      returns (moves': seq<Move>, s': State)
    requires Run(range, jobs, moves) == Some(s) && Idle(s)
    requires t < |jobs| == |s.pcs| && jobs[t].Service? && s.pcs[t] == Execute(p)
    ensures Run(range, jobs, moves') == Some(s')
    ensures s' == s.(taken := s.taken - {p}, pcs := s.pcs[t := Done(NotStarted)])
  {
    moves', s' := AdvanceFailing(range, jobs, moves, s, t);
    moves', s' := AdvanceFailing(range, jobs, moves', s', t);
    moves', s' := AdvanceFailing(range, jobs, moves', s', t);
    moves', s' := AdvanceFailing(range, jobs, moves', s', t);
  }

  /** A service thread alone that finds no port changes nothing. */
  lemma {:induction false} ServiceIsRefused(range: seq<int>, jobs: seq<Job>, moves: seq<Move>, s: State, t: nat)
      returns (moves': seq<Move>, s': State)
    requires Run(range, jobs, moves) == Some(s) && Idle(s)
    requires t < |jobs| == |s.pcs| && jobs[t].Service? && s.pcs[t] == Start && FirstFree(range, s.taken) == None
    ensures Run(range, jobs, moves') == Some(s') && s' == s.(pcs := s.pcs[t := Done(Refused)])
  {
    moves', s' := Advance(range, jobs, moves, s, t);
    moves', s' := Advance(range, jobs, moves', s', t);
    moves', s' := Advance(range, jobs, moves', s', t);
  }

  /** A cleanUp thread that finds no executor, or whose kill fails, changes nothing. */
  lemma {:induction false} CleanUpDoesNothing(range: seq<int>, jobs: seq<Job>, moves: seq<Move>, s: State, t: nat)
      returns (moves': seq<Move>, s': State)
    requires Run(range, jobs, moves) == Some(s) && t < |jobs| == |s.pcs| && jobs[t].CleanUp? && s.pcs[t] == Start
    ensures Run(range, jobs, moves') == Some(s')
    ensures s' == s.(pcs := s.pcs[t := Done(if jobs[t].id in s.executors then NotKilled else Missing)])
  {
    moves', s' := AdvanceFailing(range, jobs, moves, s, t);
    if jobs[t].id in s.executors {
      moves', s' := AdvanceFailing(range, jobs, moves', s', t);
    }
  }

  /** A cleanUp thread that has found its executor kills it alone, ... */
  lemma {:induction false} CleanUpKills(range: seq<int>, jobs: seq<Job>, moves: seq<Move>, s: State, t: nat, p: int)
      returns (moves': seq<Move>, s': State)
    requires Run(range, jobs, moves) == Some(s) && Idle(s)
    requires t < |jobs| == |s.pcs| && jobs[t].CleanUp? && s.pcs[t] == Kill(p)
    ensures Run(range, jobs, moves') == Some(s')
    ensures s' == s.(execsLock := Some(t), pcs := s.pcs[t := Removing(p)])
  {
    moves', s' := Advance(range, jobs, moves, s, t);
    moves', s' := Advance(range, jobs, moves', s', t);
  }

  /** ... removes it ... */
  lemma {:induction false} CleanUpRemoves(range: seq<int>, jobs: seq<Job>, moves: seq<Move>, s: State, t: nat, p: int)
      returns (moves': seq<Move>, s': State)
    requires Run(range, jobs, moves) == Some(s) && Idle(s)
    requires t < |jobs| == |s.pcs| && jobs[t].CleanUp? && s.pcs[t] == Kill(p)
    ensures Run(range, jobs, moves') == Some(s')
    ensures s' == s.(executors := s.executors - {jobs[t].id}, pcs := s.pcs[t := AwaitRelease(p)])
  {
    moves', s' := CleanUpKills(range, jobs, moves, s, t, p);
    moves', s' := Advance(range, jobs, moves', s', t);
    moves', s' := Advance(range, jobs, moves', s', t);
  }

  /** ... and gives its port back. */
  lemma {:induction false} CleanUpReleases(range: seq<int>, jobs: seq<Job>, moves: seq<Move>, s: State, t: nat, p: int)
      returns (moves': seq<Move>, s': State)
    requires Run(range, jobs, moves) == Some(s) && Idle(s)
    requires t < |jobs| == |s.pcs| && jobs[t].CleanUp? && s.pcs[t] == AwaitRelease(p)
    ensures Run(range, jobs, moves') == Some(s')
    ensures s' == s.(taken := s.taken - {p}, pcs := s.pcs[t := Done(Cleaned)])
  {
    moves', s' := Advance(range, jobs, moves, s, t);
    moves', s' := Advance(range, jobs, moves', s', t);
    moves', s' := Advance(range, jobs, moves', s', t);
  }

  /** Thread k has registered its executor on the first port, and threads i and j, cleanUps of
      its id, have both found it. */
  lemma {:induction false} BothFindIt(range: seq<int>, jobs: seq<Job>, i: nat, j: nat, k: nat)
      returns (moves: seq<Move>, s: State)
    requires range != [] && i < j < |jobs| && k < |jobs| && jobs[i].CleanUp? && jobs[j] == jobs[i]
    requires jobs[k] == Service(jobs[i].id)
    ensures Run(range, jobs, moves) == Some(s) && Idle(s) && |s.pcs| == |jobs|
    ensures s.executors == map[jobs[i].id := range[0]] && s.pcs[i] == s.pcs[j] == Kill(range[0])
  {
    moves, s := ServiceReserves(range, jobs, [], Initial(|jobs|), k, range[0]);
    moves, s := ServiceRegisters(range, jobs, moves, s, k, range[0]);
    moves, s := Advance(range, jobs, moves, s, i);
    moves, s := Advance(range, jobs, moves, s, j);
  }

  /** Both kill it, and each sets out to release the one port. */
  lemma {:induction false} TwoCleanUpsClash(range: seq<int>, jobs: seq<Job>, i: nat, j: nat, k: nat)
    requires range != [] && i < j < |jobs| && k < |jobs| && jobs[i].CleanUp? && jobs[j] == jobs[i]
    requires jobs[k] == Service(jobs[i].id)
    ensures !AlwaysExclusive(range, jobs)
  {
    var moves, s := BothFindIt(range, jobs, i, j, k);
    moves, s := CleanUpRemoves(range, jobs, moves, s, i, range[0]);
    moves, s := CleanUpRemoves(range, jobs, moves, s, j, range[0]);
    assert Owns(s, Thread(i), range[0]) && Owns(s, Thread(j), range[0]);
  }

  /** A second service of a registered id keeps its port, neither registered nor released. */
  lemma {:induction false} TwoServicesLeak(range: seq<int>, jobs: seq<Job>, i: nat, j: nat)
      returns (moves: seq<Move>, s: State, q: int)
    requires !OnePort(range) && i < j < |jobs| && jobs[i].Service? && jobs[j] == jobs[i]
    ensures Run(range, jobs, moves) == Some(s) && |s.pcs| == |jobs|
    ensures s.executors == map[jobs[i].id := range[0]] && q in s.taken && q in range && q != range[0]
    ensures forall t :: 0 <= t < |jobs| ==> if t == i || t == j then s.pcs[t].Done? else s.pcs[t].Start?
  {
    moves, s := ServiceReserves(range, jobs, [], Initial(|jobs|), i, range[0]);
    moves, s := ServiceRegisters(range, jobs, moves, s, i, range[0]);
    q := FirstFree(range, s.taken).value;
    moves, s := ServiceReserves(range, jobs, moves, s, j, q);
    moves, s := Advance(range, jobs, moves, s, j);
    moves, s := Advance(range, jobs, moves, s, j);
  }

  lemma {:induction false} TwoServicesClash(range: seq<int>, jobs: seq<Job>, i: nat, j: nat)
    requires !OnePort(range) && i < j < |jobs| && jobs[i].Service? && jobs[j] == jobs[i]
    ensures !AlwaysExclusive(range, jobs)
  {
    var moves, s, q := TwoServicesLeak(range, jobs, i, j);
    forall o ensures !Owns(s, o, q) {
      if o.Thread? && o.t < |s.pcs| {
        assert s.pcs[o.t].Start? || s.pcs[o.t].Done?;
      }
    }
    assert !ExclusivelyOwned(s);
  }

  /** In every interleaving of the jobs, portsTaken is the disjoint union of what is owned. */
  ghost predicate AlwaysExclusive(range: seq<int>, jobs: seq<Job>) {
    forall moves :: Run(range, jobs, moves).Some? ==> ExclusivelyOwned(Run(range, jobs, moves).value)
  }

  /** For any jobs and ports, ownership is exclusive in every interleaving exactly if an id that
      can be registered is cleaned up at most once, and no id is served twice, unless there is
      only one port. */
  lemma {:induction false} ExclusiveWhenHarmless(range: seq<int>, jobs: seq<Job>)
    ensures AlwaysExclusive(range, jobs) <==> Harmless(range, jobs)
  {
    if Harmless(range, jobs) {
      forall moves | Run(range, jobs, moves).Some? ensures ExclusivelyOwned(Run(range, jobs, moves).value) {
        PortsAreExclusivelyOwned(range, jobs, moves);
      }
    } else {
      var i, j :| 0 <= i < j < |jobs| && jobs[i] == jobs[j] &&
        !match jobs[i] case Service(_) => OnePort(range) case CleanUp(id) => Barren(range, jobs, id);
      if jobs[i].Service? {
        TwoServicesClash(range, jobs, i, j);
      } else {
        var k :| 0 <= k < |jobs| && jobs[k] == Service(jobs[i].id);
        TwoCleanUpsClash(range, jobs, i, j, k);
      }
    }
  }

  // ---------- two such runs in full ----------

  /** Service a is registered, and both cleanUps of a have found its executor. */
  lemma {:induction false} BothFindTheExecutor(range: seq<int>, jobs: seq<Job>, p: int)
      returns (moves: seq<Move>, s: State)
    requires range == [p] && jobs == [Service("a"), CleanUp("a"), CleanUp("a"), Service("b"), Service("c")]
    ensures Run(range, jobs, moves) == Some(s)
    ensures s == State({p}, map["a" := p], None, None, [Done(Registered), Kill(p), Kill(p), Start, Start])
  {
    s := Initial(5);
    moves := [];
    moves, s := ServiceReserves(range, jobs, moves, s, 0, p);
    moves, s := ServiceRegisters(range, jobs, moves, s, 0, p);
    assert s == State({p}, map["a" := p], None, None, [Done(Registered), Start, Start, Start, Start]);
    moves, s := Advance(range, jobs, moves, s, 1);
    moves, s := Advance(range, jobs, moves, s, 2);
  }

  lemma {:induction false} FirstCleanUp(range: seq<int>, jobs: seq<Job>, p: int) returns (moves: seq<Move>, s: State)
    requires range == [p] && jobs == [Service("a"), CleanUp("a"), CleanUp("a"), Service("b"), Service("c")]
    ensures Run(range, jobs, moves) == Some(s)
    ensures s == State({}, map[], None, None, [Done(Registered), Done(Cleaned), Kill(p), Start, Start])
  {
    moves, s := BothFindTheExecutor(range, jobs, p);
    moves, s := CleanUpRemoves(range, jobs, moves, s, 1, p);
    moves, s := CleanUpReleases(range, jobs, moves, s, 1, p);
  }

  /** A second service of a registered id keeps its port for ever: it is neither registered
      nor released. */
  lemma {:induction false} DuplicateServiceLeaksAPort()
    ensures exists moves ::
              var r := Run([54321, 54322], [Service("a"), Service("a")], moves);
              r.Some? && AllDone(r.value) && 54322 in r.value.taken && 54322 !in r.value.executors.Values
  {
    var range, jobs := [54321, 54322], [Service("a"), Service("a")];
    assert range[0] != range[1];
    var moves, s, q := TwoServicesLeak(range, jobs, 0, 1);
    assert q == 54322 && AllDone(s);
    assert forall id :: id in s.executors ==> s.executors[id] == 54321;
  }

  /** Two cleanUps of one id, both of which find its executor and see their kill succeed: the
      second one releases the port while another service holds it, and a third gets it too. */
  lemma {:induction false} RepeatedCleanUpSharesAPort(p: int)
    ensures exists moves ::
              var r := Run([p], [Service("a"), CleanUp("a"), CleanUp("a"), Service("b"), Service("c")], moves);
              r.Some? && Owns(r.value, Thread(3), p) && Owns(r.value, Thread(4), p)
  {
    var range := [p];
    var jobs := [Service("a"), CleanUp("a"), CleanUp("a"), Service("b"), Service("c")];
    var moves, s := FirstCleanUp(range, jobs, p);
    moves, s := SecondCleanUp(range, jobs, moves, s, p);
    assert Owns(s, Thread(3), p) && Owns(s, Thread(4), p);
  }

  lemma {:induction false} SecondCleanUp(range: seq<int>, jobs: seq<Job>, moves: seq<Move>, s: State, p: int)
      returns (moves': seq<Move>, s': State)
    requires range == [p] && jobs == [Service("a"), CleanUp("a"), CleanUp("a"), Service("b"), Service("c")]
    requires Run(range, jobs, moves) == Some(s)
    requires s == State({}, map[], None, None, [Done(Registered), Done(Cleaned), Kill(p), Start, Start])
    ensures Run(range, jobs, moves') == Some(s')
    ensures s'.pcs == [Done(Registered), Done(Cleaned), Done(Cleaned), Execute(p), Execute(p)]
  {
    moves', s' := ServiceReserves(range, jobs, moves, s, 3, p);
    moves', s' := CleanUpRemoves(range, jobs, moves', s', 2, p);
    moves', s' := CleanUpReleases(range, jobs, moves', s', 2, p);
    assert s'.taken == {};
    moves', s' := ServiceReserves(range, jobs, moves', s', 4, p);
  }
}
