/** fdtcp's Transfer and main as the source writes them, proved to be the runs of TransferRun. */
module TransferClient {
  import opened Text
  import opened ChildOutput
  import opened TransferRun

  /** The requests sent to the remote daemons, in order. */
  class Wire {
    var sent: seq<Message>

    constructor ()
      ensures sent == []
    {
      sent := [];
    }

    method Call(m: Message)
      modifies this
      ensures sent == old(sent) + [m]
    {
      sent := sent + [m];
    }
  }

  /** What the outside makes of one call of a transfer. */
  function FaultAt(j: Job, step: Step): Option<Exn> {
    if j.fault.FailsAt? && j.fault.step == step then Some(j.fault.exn) else None
  }

  function FirstOf(a: Option<Exn>, b: Option<Exn>): Option<Exn> {
    if a.Some? then a else b
  }

  function TestFault(j: Job): Option<Exn> {
    FirstOf(FaultAt(j, TestReceiver), FaultAt(j, TestSender))
  }

  function TestsSent(j: Job): seq<Message> {
    if FaultAt(j, TestReceiver).Some? then Tests(j)[..1] else Tests(j)
  }

  function StartFault(j: Job): Option<Exn> {
    FirstOf(FaultAt(j, Resolve),
            FirstOf(FaultAt(j, StartServer), FirstOf(FaultAt(j, ServerPort), FaultAt(j, StartClient))))
  }

  /** The start requests of a transfer whose test went well. */
  function StartsSent(j: Job): seq<Message> {
    if FaultAt(j, Resolve).Some? then []
    else if FaultAt(j, StartServer).Some? || FaultAt(j, ServerPort).Some? then [Message(Receiving, j.receiver, j.id)]
    else [Message(Receiving, j.receiver, j.id), Message(Sending, j.sender, j.id)]
  }

  function StreamFault(cfg: Config, j: Job): Option<Exn> {
    if LoggingFails(cfg, j.records) then Some(OtherError) else FaultAt(j, StreamLogs)
  }

  /** A transfer, phase by phase. */
  lemma {:induction false} Phases(cfg: Config, j: Job)
    requires !j.setUpFailed
    ensures var registered := [j.receiver, j.sender];
            TransferResult(cfg, j) ==
            if TestFault(j).Some? then TransferRun.Result(TestsSent(j), [], TestFault(j))
            else if StartFault(j).Some? then TransferRun.Result(Tests(j) + StartsSent(j), registered, StartFault(j))
            else if StreamFault(cfg, j).Some? then
              TransferRun.Result(Tests(j) + StartsSent(j), registered, StreamFault(cfg, j))
            else
              var c := CleanupRun(cfg, registered, j.id, j.own);
              TransferRun.Result(Tests(j) + StartsSent(j) + c.sent, c.left, c.raised)
  {
  }

  /** What one turn of main's loop does with the result of a transfer and the exit status. */
  predicate Handled(cfg: Config, j: Job, code: int, goOn: bool, result: Option<int>, code': int) {
    match TransferResult(cfg, j).raised
    case None => goOn && result == Some(0) && code' == code
    case Some(e) =>
      match Handle(cfg, e)
      case GoOn(c) => goOn && result == Some(1) && code' == c
      case Stop(c) => !goOn && result == Some(1) && code' == c
      case Escape => !goOn && result == InitialResult(j) && code' == code
  }

  lemma Sum(a: seq<Message>, b: seq<Message>, c: seq<Message>)
    ensures (a + b) + c == a + (b + c)
  {
  }

  class Transfer {
    const job: Job
    var result: Option<int>
    var toCleanup: seq<string>

    constructor (job: Job)
      ensures this.job == job && result == InitialResult(job) && toCleanup == []
    {
      this.job := job;
      result, toCleanup := InitialResult(job), [];
    }

    /** performCleanup; the exceptions of the requests themselves are only logged. */
    method PerformCleanup(cfg: Config, wire: Wire, w: CleanupWorld) returns (raised: Option<Exn>)
      modifies this`toCleanup, wire
      ensures var c := CleanupRun(cfg, old(toCleanup), job.id, w);
              wire.sent == old(wire.sent) + c.sent && toCleanup == c.left && raised == c.raised
    {
      if |toCleanup| < 1 {
        return None;
      }
      toCleanup := Reverse(toCleanup);
      var tmpToCleanup := toCleanup;
      var k := 0;
      while k < |tmpToCleanup|
        invariant 0 <= k <= |tmpToCleanup|
        invariant BreakAt(tmpToCleanup, w, k) == BreakAt(tmpToCleanup, w, 0)
        invariant toCleanup == tmpToCleanup[..|tmpToCleanup| - k]
        invariant wire.sent == old(wire.sent) + Requests(tmpToCleanup[..k], job.id)
      {
        if SendAt(w, k).NotSent? {
          return Some(SendAt(w, k).exn);
        }
        wire.Call(Message(Cleanup, tmpToCleanup[k], job.id));
        toCleanup := toCleanup[..|toCleanup| - 1];
        k := k + 1;
      }
      if cfg.monitoring {
        return w.monitor;
      }
      return None;
    }

    /** performTransfer. */
    method PerformTransfer(cfg: Config, wire: Wire) returns (raised: Option<Exn>)
      requires toCleanup == [] && result == InitialResult(job)
      modifies this`toCleanup, wire
      ensures var t := TransferResult(cfg, job);
              wire.sent == old(wire.sent) + t.sent && toCleanup == t.left && raised == t.raised
    {
      if result.Some? {
        return None;
      }
      Phases(cfg, job);
      raised := TestParties(wire);
      if raised.Some? { return; }
      toCleanup := toCleanup + [job.receiver];
      toCleanup := toCleanup + [job.sender];
      raised := StartParties(wire);
      Sum(old(wire.sent), Tests(job), StartsSent(job));
      if raised.Some? { return; }
      raised := StreamLog(cfg);
      if raised.Some? { return; }
      Sum(old(wire.sent), Tests(job) + StartsSent(job), CleanupRun(cfg, toCleanup, job.id, job.own).sent);
      raised := PerformCleanup(cfg, wire, job.own);
    }

    /** One turn of main's loop: performTransfer and the handlers around it. */
    method Attempt(cfg: Config, wire: Wire, code: int) returns (goOn: bool, exitStatus: int)
      requires toCleanup == [] && result == InitialResult(job)
      modifies this, wire
      ensures var t := TransferResult(cfg, job);
              && wire.sent == old(wire.sent) + t.sent && toCleanup == t.left
              && Handled(cfg, job, code, goOn, result, exitStatus)
    {
      goOn, exitStatus := true, code;
      var raised := PerformTransfer(cfg, wire);
      if raised == None {
        result := Some(0);
        return;
      }
      match Handle(cfg, raised.value) {
        case GoOn(c) =>
          result := Some(1);
          exitStatus := c;
        case Stop(c) =>
          result := Some(1);
          goOn, exitStatus := false, c;
        case Escape =>
          goOn := false;
      }
    }

    /** The test of both parties. */
    method TestParties(wire: Wire) returns (raised: Option<Exn>)
      modifies wire
      ensures raised == TestFault(job) && wire.sent == old(wire.sent) + TestsSent(job)
    {
      wire.Call(Message(Test, job.receiver, job.id));
      if FaultAt(job, TestReceiver).Some? { return FaultAt(job, TestReceiver); }
      wire.Call(Message(Test, job.sender, job.id));
      return FaultAt(job, TestSender);
    }

    /** The server is started, then the client that sends to it. */
    method StartParties(wire: Wire) returns (raised: Option<Exn>)
      modifies wire
      ensures raised == StartFault(job) && wire.sent == old(wire.sent) + StartsSent(job)
    {
      if FaultAt(job, Resolve).Some? { return FaultAt(job, Resolve); }
      wire.Call(Message(Receiving, job.receiver, job.id));
      if FaultAt(job, StartServer).Some? { return FaultAt(job, StartServer); }
      if FaultAt(job, ServerPort).Some? { return FaultAt(job, ServerPort); }
      wire.Call(Message(Sending, job.sender, job.id));
      return FaultAt(job, StartClient);
    }

    /** The loop over the client's output: the status record at its end is not looked at. */
    method StreamLog(cfg: Config) returns (raised: Option<Exn>)
      ensures raised == StreamFault(cfg, job)
    {
      var i := 0;
      while i < |job.records|
        invariant 0 <= i <= |job.records|
        invariant !LoggingFails(cfg, job.records[..i])
      {
        if (job.records[i].StdOut? || job.records[i].StdErr?) && !cfg.loggerTakesArgs {
          return Some(OtherError);
        }
        i := i + 1;
      }
      assert job.records[..i] == job.records;
      return FaultAt(job, StreamLogs);
    }
  }

  function Jobs(transfers: seq<Transfer>): (jobs: seq<Job>)
    ensures |jobs| == |transfers| && forall i :: 0 <= i < |transfers| ==> jobs[i] == transfers[i].job
  {
    seq(|transfers|, i requires 0 <= i < |transfers| => transfers[i].job)
  }

  predicate AllDifferent(transfers: seq<Transfer>) {
    forall i, j :: 0 <= i < j < |transfers| ==> transfers[i] != transfers[j]
  }

  /** The transfers from index i on have not been performed. */
  ghost predicate NewFrom(transfers: seq<Transfer>, i: nat)
    reads transfers
  {
    forall k :: i <= k < |transfers| ==>
      transfers[k].toCleanup == [] && transfers[k].result == InitialResult(transfers[k].job)
  }

  /** The state of the first transfers is what the lists say. */
  ghost predicate Reflect(transfers: seq<Transfer>, left: seq<seq<string>>, results: seq<Option<int>>)
    reads transfers
  {
    && |left| == |results| <= |transfers|
    && (forall k :: 0 <= k < |left| ==> transfers[k].toCleanup == left[k] && transfers[k].result == results[k])
  }

  /** A loop of which some transfers are done. */
  function Joined(done: Loop, rest: Loop): Loop {
    Loop(done.sent + rest.sent, done.left + rest.left, done.results + rest.results, rest.code)
  }

  lemma JoinedNext(done: Loop, t: TransferRun.Result, result: Option<int>, rest: Loop)
    ensures Joined(done, Before(t, result, rest)) ==
            Joined(Loop(done.sent + t.sent, done.left + [t.left], done.results + [result], done.code), rest)
  {
  }

  /** What is left of the loop after a turn. */
  function Ahead(cfg: Config, jobs: seq<Job>, goOn: bool, code: int): Loop {
    if goOn then RunLoop(cfg, jobs, code) else Untouched(jobs, code)
  }

  lemma {:induction false} LoopTurn(cfg: Config, jobs: seq<Job>, i: nat, code: int, done: Loop, total: Loop,
                                    goOn: bool, result: Option<int>, code': int)
    requires i < |jobs| && Joined(done, Ahead(cfg, jobs[i..], true, code)) == total
    requires Handled(cfg, jobs[i], code, goOn, result, code')
    ensures var t := TransferResult(cfg, jobs[i]);
            Joined(Loop(done.sent + t.sent, done.left + [t.left], done.results + [result], 0),
                   Ahead(cfg, jobs[i + 1..], goOn, code')) == total
  {
    assert jobs[i..][1..] == jobs[i + 1..];
    JoinedNext(done, TransferResult(cfg, jobs[i]), result, Ahead(cfg, jobs[i + 1..], goOn, code'));
  }

  lemma {:induction false} LoopStarts(cfg: Config, jobs: seq<Job>)
    ensures Joined(Loop([], [], [], 0), Ahead(cfg, jobs[0..], true, 0)) == RunLoop(cfg, jobs, 0)
  {
    assert jobs[0..] == jobs;
  }

  lemma {:induction false} LoopEnds(cfg: Config, transfers: seq<Transfer>, i: nat, goOn: bool, code: int,
                                    done: Loop, total: Loop)
    requires i <= |transfers| && (goOn ==> i == |transfers|) && |done.left| == |done.results| == i
    requires Joined(done, Ahead(cfg, Jobs(transfers)[i..], goOn, code)) == total
    requires Reflect(transfers, done.left, done.results) && NewFrom(transfers, i)
    ensures Reflect(transfers, total.left, total.results) && total.sent == done.sent && total.code == code
  {
    var rest := Untouched(Jobs(transfers)[i..], code);
    assert Ahead(cfg, Jobs(transfers)[i..], goOn, code) == rest;
    forall k | 0 <= k < |transfers|
      ensures transfers[k].toCleanup == total.left[k] && transfers[k].result == total.results[k]
    {
      if k >= i {
        assert total.left[k] == rest.left[k - i] && total.results[k] == rest.results[k - i];
      }
    }
  }

  /** One turn of the loop, for transfer i. */
  method PerformNext(cfg: Config, transfers: seq<Transfer>, wire: Wire, i: nat, code: int,
                     ghost left: seq<seq<string>>, ghost results: seq<Option<int>>)
      returns (goOn: bool, exitStatus: int)
    requires AllDifferent(transfers) && i < |transfers| && NewFrom(transfers, i)
    requires |left| == |results| == i && Reflect(transfers, left, results)
    modifies transfers, wire
    ensures var t := TransferResult(cfg, transfers[i].job);
            && wire.sent == old(wire.sent) + t.sent && NewFrom(transfers, i + 1)
            && Reflect(transfers, left + [t.left], results + [transfers[i].result])
    ensures Handled(cfg, transfers[i].job, code, goOn, transfers[i].result, exitStatus)
  {
    goOn, exitStatus := transfers[i].Attempt(cfg, wire, code);
  }

  /** The loop of main over the transfers. */
  method PerformAll(cfg: Config, transfers: seq<Transfer>, wire: Wire) returns (exitStatus: int)
    requires AllDifferent(transfers) && NewFrom(transfers, 0)
    modifies transfers, wire
    ensures var l := RunLoop(cfg, Jobs(transfers), 0);
            wire.sent == old(wire.sent) + l.sent && Reflect(transfers, l.left, l.results) && exitStatus == l.code
  {
    exitStatus := 0;
    var i, goOn := 0, true;
    ghost var jobs, done := Jobs(transfers), Loop([], [], [], 0);
    ghost var total := RunLoop(cfg, jobs, 0);
    LoopStarts(cfg, jobs);
    while i < |transfers| && goOn
      invariant 0 <= i <= |transfers| && |done.left| == |done.results| == i
      invariant Joined(done, Ahead(cfg, jobs[i..], goOn, exitStatus)) == total
      invariant wire.sent == old(wire.sent) + done.sent
      invariant Reflect(transfers, done.left, done.results) && NewFrom(transfers, i)
    {
      ghost var t, code := TransferResult(cfg, jobs[i]), exitStatus;
      goOn, exitStatus := PerformNext(cfg, transfers, wire, i, exitStatus, done.left, done.results);
      LoopTurn(cfg, jobs, i, code, done, total, goOn, transfers[i].result, exitStatus);
      Sum(old(wire.sent), done.sent, t.sent);
      done := Loop(done.sent + t.sent, done.left + [t.left], done.results + [transfers[i].result], 0);
      i := i + 1;
    }
    LoopEnds(cfg, transfers, i, goOn, exitStatus, done, total);
  }

  /** The loop of main's finally block. */
  method CleanUpAll(cfg: Config, transfers: seq<Transfer>, wire: Wire, ghost left: seq<seq<string>>)
      returns (escaped: bool)
    requires AllDifferent(transfers) && |left| == |transfers|
    requires forall k :: 0 <= k < |transfers| ==> transfers[k].toCleanup == left[k]
    modifies transfers`toCleanup, wire
    ensures var f := FinalLoop(cfg, Jobs(transfers), left);
            wire.sent == old(wire.sent) + f.0 && escaped == f.1
  {
    var i := 0;
    ghost var jobs := Jobs(transfers);
    ghost var done: seq<Message> := [];
    assert jobs[0..] == jobs && left[0..] == left;
    assert [] + FinalLoop(cfg, jobs, left).0 == FinalLoop(cfg, jobs, left).0;
    while i < |transfers|
      invariant 0 <= i <= |transfers|
      invariant FinalLoop(cfg, jobs, left) ==
                (done + FinalLoop(cfg, jobs[i..], left[i..]).0, FinalLoop(cfg, jobs[i..], left[i..]).1)
      invariant wire.sent == old(wire.sent) + done
      invariant forall k :: i <= k < |transfers| ==> transfers[k].toCleanup == left[k]
    {
      ghost var c := CleanupRun(cfg, left[i], jobs[i].id, jobs[i].last);
      assert jobs[i..][1..] == jobs[i + 1..] && left[i..][1..] == left[i + 1..];
      var raised := transfers[i].PerformCleanup(cfg, wire, transfers[i].job.last);
      Sum(old(wire.sent), done, c.sent);
      if LeavesFinally(cfg, raised) {
        return true;
      }
      Sum(done, c.sent, FinalLoop(cfg, jobs[i + 1..], left[i + 1..]).0);
      done := done + c.sent;
      i := i + 1;
    }
    return false;
  }

  /** main, from the grouped transfers on. */
  method PerformRun(cfg: Config, transfers: seq<Transfer>, wire: Wire) returns (exit: Exit)
    requires AllDifferent(transfers) && NewFrom(transfers, 0)
    modifies transfers, wire
    ensures var r := MainRun(cfg, Jobs(transfers));
            && wire.sent == old(wire.sent) + r.trace && exit == r.exit
            && |r.results| == |transfers|
            && forall k :: 0 <= k < |transfers| ==> transfers[k].result == r.results[k]
  {
    ghost var l := RunLoop(cfg, Jobs(transfers), 0);
    var appExitStatus := PerformAll(cfg, transfers, wire);
    var escaped := CleanUpAll(cfg, transfers, wire, l.left);
    Sum(old(wire.sent), l.sent, FinalLoop(cfg, Jobs(transfers), l.left).0);
    if escaped || !cfg.loggerTakesArgs {
      return Crash;
    }
    return Code(appExitStatus);
  }
}
