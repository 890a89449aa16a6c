/** The runs of fdtcp's main: transfers performed one after the other, each a chain of remote
    calls any of which may fail, and a final loop that cleans up what is left. */
module TransferRun {
  import opened Text
  import opened ChildOutput

  // ---------- what may happen ----------

  datatype Exn = CopyError | PortInUse | ExecutorError | DaemonError | IoError | OtherError | Interrupt

  /** The calls of performTransfer that may raise, in their order. */
  datatype Step = TestReceiver | TestSender | Resolve | StartServer | ServerPort | StartClient | StreamLogs

  datatype Fault = NoFault | FailsAt(step: Step, exn: Exn)

  /** One cleanup request: answered; failed with a caught exception; or not sent at all, since
      no proxy could be built for the URI or an interrupt came first. */
  datatype Send = Answered | Failing(exn: Exn) | NotSent(exn: Exn)

  /** The outside during one performCleanup; requests beyond the list are answered. */
  datatype CleanupWorld = CleanupWorld(sends: seq<Send>, monitor: Option<Exn>)

  /** A transfer and all that the outside does to it in one run. */
  datatype Job = Job(
    receiver: string,
    sender: string,
    id: string,
    setUpFailed: bool,
    fault: Fault,
    records: seq<Record>,
    own: CleanupWorld,
    last: CleanupWorld)

  /** A report file is requested; ApMon is configured; the logger accepts the extra arguments
      main and performTransfer pass to it, which fdtcp's own logger does not. */
  datatype Config = Config(report: bool, monitoring: bool, loggerTakesArgs: bool)

  datatype Action = Test | Receiving | Sending | Cleanup

  datatype Message = Message(action: Action, uri: string, id: string)

  // ---------- performCleanup ----------

  function Reverse<T>(s: seq<T>): (r: seq<T>)
    ensures |r| == |s| && forall i :: 0 <= i < |s| ==> r[i] == s[|s| - 1 - i]
  {
    if s == [] then [] else Reverse(s[1..]) + [s[0]]
  }

  function SendAt(w: CleanupWorld, k: nat): Send {
    if k < |w.sends| then w.sends[k] else Answered
  }

  /** The index of the first request that is not sent, or |order|. */
  function BreakAt(order: seq<string>, w: CleanupWorld, k: nat): (b: nat)
    requires k <= |order|
    ensures k <= b <= |order|
    ensures b < |order| ==> SendAt(w, b).NotSent?
    ensures forall i :: k <= i < b ==> !SendAt(w, i).NotSent?
    decreases |order| - k
  {
    if k == |order| || SendAt(w, k).NotSent? then k else BreakAt(order, w, k + 1)
  }

  function Requests(uris: seq<string>, id: string): (ms: seq<Message>)
    ensures |ms| == |uris| && forall i :: 0 <= i < |uris| ==> ms[i] == Message(Cleanup, uris[i], id)
  {
    seq(|uris|, i requires 0 <= i < |uris| => Message(Cleanup, uris[i], id))
  }

  datatype Result = Result(sent: seq<Message>, left: seq<string>, raised: Option<Exn>)

  /** performCleanup on a list of registered URIs: requests from the tail on, one entry popped
      off the other end after each. */
  function CleanupRun(cfg: Config, registered: seq<string>, id: string, w: CleanupWorld): Result {
    if registered == [] then Result([], [], None)
    else
      var order := Reverse(registered);
      var b := BreakAt(order, w, 0);
      Result(Requests(order[..b], id), order[..|order| - b],
             if b < |order| then Some(SendAt(w, b).exn) else if cfg.monitoring then w.monitor else None)
  }

  /** Every request is sent. */
  predicate Unbroken(w: CleanupWorld) {
    forall k :: 0 <= k < |w.sends| ==> !w.sends[k].NotSent?
  }

  /** Whichever requests fail, each entry gets one, last registered first; the list ends empty,
      and a second call sends nothing. */
  lemma {:induction false} CleanupReachesAll(cfg: Config, registered: seq<string>, id: string,
                                             w: CleanupWorld, w2: CleanupWorld)
    requires Unbroken(w)
    ensures var c := CleanupRun(cfg, registered, id, w);
            && c.sent == Requests(Reverse(registered), id) && c.left == []
            && CleanupRun(cfg, c.left, id, w2) == Result([], [], None)
  {
    var order := Reverse(registered);
    assert order[..|order|] == order;
  }

  predicate Distinct(s: seq<string>) {
    forall i, j :: 0 <= i < j < |s| ==> s[i] != s[j]
  }

  /** A cleanup broken off before request b is completed by a later one exactly when it had
      sent nothing: the entries popped are not the ones that were sent. */
  lemma {:induction false} BrokenCleanupSkips(cfg: Config, registered: seq<string>, id: string,
                                              w: CleanupWorld, w2: CleanupWorld)
    requires Distinct(registered) && Unbroken(w2) && registered != []
    requires BreakAt(Reverse(registered), w, 0) < |registered|
    ensures var c := CleanupRun(cfg, registered, id, w);
            var c2 := CleanupRun(cfg, c.left, id, w2);
            (forall uri :: uri in registered ==> Message(Cleanup, uri, id) in c.sent + c2.sent)
            <==> BreakAt(Reverse(registered), w, 0) == 0
  {
    var order := Reverse(registered);
    var b := BreakAt(order, w, 0);
    var c := CleanupRun(cfg, registered, id, w);
    CleanupReachesAll(cfg, c.left, id, w2, w2);
    var again := Requests(Reverse(c.left), id);
    if b == 0 {
      assert order[..|order|] == order;
      ReversedTwiceReaches(registered, id);
    } else {
      FirstIsSkipped(registered, id, b);
    }
  }

  lemma {:induction false} ReversedTwiceReaches(registered: seq<string>, id: string)
    ensures forall uri :: uri in registered ==> Message(Cleanup, uri, id) in Requests(Reverse(Reverse(registered)), id)
  {
    forall uri | uri in registered ensures Message(Cleanup, uri, id) in Requests(Reverse(Reverse(registered)), id) {
      var i :| 0 <= i < |registered| && registered[i] == uri;
      assert Reverse(Reverse(registered))[i] == Reverse(registered)[|registered| - 1 - i] == uri;
      assert Requests(Reverse(Reverse(registered)), id)[i] == Message(Cleanup, uri, id);
    }
  }

  lemma {:induction false} FirstIsSkipped(registered: seq<string>, id: string, b: nat)
    requires Distinct(registered) && 0 < b < |registered|
    ensures var order := Reverse(registered); var left := order[..|order| - b];
            Message(Cleanup, registered[0], id) !in Requests(order[..b], id) + Requests(Reverse(left), id)
  {
    var order := Reverse(registered);
    var n := |order|;
    var left := order[..n - b];
    forall i | 0 <= i < b ensures Requests(order[..b], id)[i].uri != registered[0] {
      assert order[..b][i] == registered[n - 1 - i];
    }
    forall i | 0 <= i < n - b ensures Requests(Reverse(left), id)[i].uri != registered[0] {
      assert Reverse(left)[i] == left[n - b - 1 - i] == registered[b + i];
    }
  }

  // ---------- performTransfer ----------

  /** An output record reaches the logger with an argument it does not take. */
  predicate LoggingFails(cfg: Config, records: seq<Record>) {
    !cfg.loggerTakesArgs && exists i :: 0 <= i < |records| && (records[i].StdOut? || records[i].StdErr?)
  }

  function Tests(j: Job): seq<Message> {
    [Message(Test, j.receiver, j.id), Message(Test, j.sender, j.id)]
  }

  function TransferResult(cfg: Config, j: Job): Result {
    if j.setUpFailed then Result([], [], None)
    else
      var registered := [j.receiver, j.sender];
      var server := Tests(j) + [Message(Receiving, j.receiver, j.id)];
      var client := server + [Message(Sending, j.sender, j.id)];
      match j.fault
      case FailsAt(TestReceiver, e) => Result(Tests(j)[..1], [], Some(e))
      case FailsAt(TestSender, e) => Result(Tests(j), [], Some(e))
      case FailsAt(Resolve, e) => Result(Tests(j), registered, Some(e))
      case FailsAt(StartServer, e) => Result(server, registered, Some(e))
      case FailsAt(ServerPort, e) => Result(server, registered, Some(e))
      case FailsAt(StartClient, e) => Result(client, registered, Some(e))
      case FailsAt(StreamLogs, e) =>
        Result(client, registered, Some(if LoggingFails(cfg, j.records) then OtherError else e))
      case NoFault =>
        if LoggingFails(cfg, j.records) then Result(client, registered, Some(OtherError))
        else
          var c := CleanupRun(cfg, registered, j.id, j.own);
          Result(client + c.sent, c.left, c.raised)
  }

  // ---------- main ----------

  /** What main's handler for an exception does: go on, stop the loop, or raise another one. */
  datatype Handling = GoOn(code: int) | Stop(code: int) | Escape

  function Handle(cfg: Config, e: Exn): Handling {
    match e
    case CopyError => if cfg.loggerTakesArgs then GoOn(1) else Escape
    case PortInUse => if cfg.loggerTakesArgs then GoOn(2) else Escape
    case ExecutorError => if cfg.loggerTakesArgs then GoOn(3) else Escape
    case DaemonError => if cfg.loggerTakesArgs then GoOn(4) else Escape
    case IoError => GoOn(5)
    case OtherError => GoOn(5)
    case Interrupt => Stop(6)
  }

  function InitialResult(j: Job): Option<int> {
    if j.setUpFailed then Some(1) else None
  }

  /** The loop over the transfers: messages, the lists left to clean up, the results, the code. */
  datatype Loop = Loop(sent: seq<Message>, left: seq<seq<string>>, results: seq<Option<int>>, code: int)

  /** Transfers that are not performed any more. */
  function Untouched(jobs: seq<Job>, code: int): Loop {
    Loop([], seq(|jobs|, _ => []), seq(|jobs|, i requires 0 <= i < |jobs| => InitialResult(jobs[i])), code)
  }

  function Before(t: Result, result: Option<int>, rest: Loop): Loop {
    Loop(t.sent + rest.sent, [t.left] + rest.left, [result] + rest.results, rest.code)
  }

  function RunLoop(cfg: Config, jobs: seq<Job>, code: int): (l: Loop)
    ensures |l.left| == |l.results| == |jobs|
  {
    if jobs == [] then Loop([], [], [], code)
    else
      var t := TransferResult(cfg, jobs[0]);
      if t.raised == None then Before(t, Some(0), RunLoop(cfg, jobs[1..], code))
      else
        match Handle(cfg, t.raised.value)
        case GoOn(c) => Before(t, Some(1), RunLoop(cfg, jobs[1..], c))
        case Stop(c) => Before(t, Some(1), Untouched(jobs[1..], c))
        case Escape => Before(t, InitialResult(jobs[0]), Untouched(jobs[1..], code))
  }

  /** Whether the finally block is left by an exception after cleaning one transfer up: any but
      an IOError from the cleanup, with fdtcp's logger also that one, and always the attempt
      to write a report. */
  predicate LeavesFinally(cfg: Config, raised: Option<Exn>) {
    cfg.report || (raised.Some? && (raised.value != IoError || !cfg.loggerTakesArgs))
  }

  /** The loop of the finally block: its messages, and whether it is left by an exception. */
  function FinalLoop(cfg: Config, jobs: seq<Job>, left: seq<seq<string>>): (seq<Message>, bool)
    requires |left| == |jobs|
  {
    if jobs == [] then ([], false)
    else
      var c := CleanupRun(cfg, left[0], jobs[0].id, jobs[0].last);
      if LeavesFinally(cfg, c.raised) then (c.sent, true)
      else
        var rest := FinalLoop(cfg, jobs[1..], left[1..]);
        (c.sent + rest.0, rest.1)
  }

  datatype Exit = Code(code: int) | Crash

  datatype Run = Run(trace: seq<Message>, results: seq<Option<int>>, exit: Exit)

  function MainRun(cfg: Config, jobs: seq<Job>): Run {
    var loop := RunLoop(cfg, jobs, 0);
    var final := FinalLoop(cfg, jobs, loop.left);
    // the last debug message passes the code as an extra argument
    Run(loop.sent + final.0, loop.results, if final.1 || !cfg.loggerTakesArgs then Crash else Code(loop.code))
  }

  // ---------- what a transfer raises and leaves ----------

  /** What a cleanup of n parties, at most two, raises: at the first request that is not sent,
      or what ApMon raises after them. */
  function CleanupRaises(cfg: Config, n: nat, w: CleanupWorld): Option<Exn> {
    if n > 0 && SendAt(w, 0).NotSent? then Some(SendAt(w, 0).exn)
    else if n > 1 && SendAt(w, 1).NotSent? then Some(SendAt(w, 1).exn)
    else if n > 0 && cfg.monitoring then w.monitor
    else None
  }

  /** What performTransfer raises, by what the outside does to the transfer. */
  function Raises(cfg: Config, j: Job): Option<Exn> {
    if j.setUpFailed then None
    else if j.fault.FailsAt? && !j.fault.step.StreamLogs? then Some(j.fault.exn)
    else if LoggingFails(cfg, j.records) then Some(OtherError)
    else if j.fault.FailsAt? then Some(j.fault.exn)
    else CleanupRaises(cfg, 2, j.own)
  }

  /** How many parties it leaves registered: none before both are tested or after its own
      cleanup, both after any other failure, and one or both if that cleanup breaks off. */
  function LeftOver(cfg: Config, j: Job): nat {
    if j.setUpFailed || (j.fault.FailsAt? && (j.fault.step.TestReceiver? || j.fault.step.TestSender?)) then 0
    else if j.fault.FailsAt? || LoggingFails(cfg, j.records) || SendAt(j.own, 0).NotSent? then 2
    else if SendAt(j.own, 1).NotSent? then 1
    else 0
  }

  lemma {:induction false} RunRaises(cfg: Config, registered: seq<string>, id: string, w: CleanupWorld)
    requires |registered| <= 2
    ensures CleanupRun(cfg, registered, id, w).raised == CleanupRaises(cfg, |registered|, w)
  {
    var order := Reverse(registered);
    if |order| == 2 {
      assert BreakAt(order, w, 1) == if SendAt(w, 1).NotSent? then 1 else BreakAt(order, w, 2);
    }
    if order != [] {
      assert BreakAt(order, w, 0) == if SendAt(w, 0).NotSent? then 0 else BreakAt(order, w, 1);
    }
  }

  lemma {:induction false} TransferRaises(cfg: Config, j: Job)
    ensures TransferResult(cfg, j).raised == Raises(cfg, j)
    ensures |TransferResult(cfg, j).left| == LeftOver(cfg, j)
  {
    if !j.setUpFailed && j.fault == NoFault && !LoggingFails(cfg, j.records) {
      RunRaises(cfg, [j.receiver, j.sender], j.id, j.own);
      var order := Reverse([j.receiver, j.sender]);
      assert |order| == 2;
      assert BreakAt(order, j.own, 1) == if SendAt(j.own, 1).NotSent? then 1 else BreakAt(order, j.own, 2);
      assert BreakAt(order, j.own, 0) == if SendAt(j.own, 0).NotSent? then 0 else BreakAt(order, j.own, 1);
    }
  }

  /** An exception after which the loop does not go on: an interrupt, and with fdtcp's logger
      each one whose handler logs it with arguments. */
  predicate StopsLoop(cfg: Config, j: Job) {
    Raises(cfg, j).Some? && !Handle(cfg, Raises(cfg, j).value).GoOn?
  }

  /** Nothing ends the loop before transfer k. */
  predicate Performed(cfg: Config, jobs: seq<Job>, k: nat) {
    k < |jobs| && forall i :: 0 <= i < k ==> !StopsLoop(cfg, jobs[i])
  }

  lemma {:induction false} LaterPerformed(cfg: Config, jobs: seq<Job>, k: nat)
    requires jobs != [] && !StopsLoop(cfg, jobs[0])
    ensures Performed(cfg, jobs[1..], k) <==> Performed(cfg, jobs, k + 1)
  {
    assert forall i :: 0 < i < |jobs| ==> jobs[i] == jobs[1..][i - 1];
    if Performed(cfg, jobs, k + 1) {
      forall i | 0 <= i < k ensures !StopsLoop(cfg, jobs[1..][i]) {
        assert jobs[1..][i] == jobs[i + 1];
      }
    }
  }

  /** The status after the transfer: its exception's, if a handler sets it. */
  function CodeAfter(cfg: Config, j: Job, code: int): int {
    var e := Raises(cfg, j);
    if e == None || Handle(cfg, e.value).Escape? then code else Handle(cfg, e.value).code
  }

  lemma {:induction false} LoopUnfolds(cfg: Config, jobs: seq<Job>, code: int) returns (code': int, rest: Loop)
    requires jobs != []
    ensures var t, l := TransferResult(cfg, jobs[0]), RunLoop(cfg, jobs, code);
            && l.sent == t.sent + rest.sent && l.left == [t.left] + rest.left && l.code == rest.code
            && code' == CodeAfter(cfg, jobs[0], code)
            && rest == if StopsLoop(cfg, jobs[0]) then Untouched(jobs[1..], code') else RunLoop(cfg, jobs[1..], code')
  {
    TransferRaises(cfg, jobs[0]);
    code' := CodeAfter(cfg, jobs[0], code);
    rest := if StopsLoop(cfg, jobs[0]) then Untouched(jobs[1..], code') else RunLoop(cfg, jobs[1..], code');
  }

  /** Each transfer performed leaves its list to the finally block. */
  lemma {:induction false} LoopLeaves(cfg: Config, jobs: seq<Job>, code: int, k: nat)
    requires k < |jobs|
    ensures RunLoop(cfg, jobs, code).left[k] ==
            if Performed(cfg, jobs, k) then TransferResult(cfg, jobs[k]).left else []
  {
    LoopLeavesList(cfg, jobs, code, k, TransferResult(cfg, jobs[k]).left);
  }

  lemma {:induction false} LoopLeavesList(cfg: Config, jobs: seq<Job>, code: int, k: nat, list: seq<string>)
    requires k < |jobs| && list == TransferResult(cfg, jobs[k]).left
    ensures RunLoop(cfg, jobs, code).left[k] == if Performed(cfg, jobs, k) then list else []
  {
    if k == 0 {
      var code', rest := LoopUnfolds(cfg, jobs, code);
    } else {
      var code' := LoopLeavesLater(cfg, jobs, code, k);
      if !StopsLoop(cfg, jobs[0]) {
        LoopLeavesList(cfg, jobs[1..], code', k - 1, list);
        LaterPerformed(cfg, jobs, k - 1);
      }
    }
  }

  lemma {:induction false} LoopLeavesLater(cfg: Config, jobs: seq<Job>, code: int, k: nat) returns (code': int)
    requires 0 < k < |jobs|
    ensures RunLoop(cfg, jobs, code).left[k] ==
            if StopsLoop(cfg, jobs[0]) then [] else RunLoop(cfg, jobs[1..], code').left[k - 1]
  {
    var rest: Loop;
    code', rest := LoopUnfolds(cfg, jobs, code);
    assert ([TransferResult(cfg, jobs[0]).left] + rest.left)[k] == rest.left[k - 1];
  }

  // ---------- every started process is cleaned up ----------

  predicate Starts(m: Message) {
    m.action == Receiving || m.action == Sending
  }

  /** The start at i is followed by a cleanup of the same party and transfer. */
  predicate SettledAt(trace: seq<Message>, i: nat)
    requires i < |trace|
  {
    exists j :: i < j < |trace| && trace[j] == Message(Cleanup, trace[i].uri, trace[i].id)
  }

  /** Every party that was sent a start is later sent a cleanup for the same transfer. */
  predicate Covered(trace: seq<Message>) {
    forall i :: 0 <= i < |trace| && Starts(trace[i]) ==> SettledAt(trace, i)
  }

  predicate UnbrokenJob(j: Job) {
    Unbroken(j.own) && Unbroken(j.last)
  }

  predicate UnbrokenJobs(jobs: seq<Job>) {
    forall k :: 0 <= k < |jobs| ==> UnbrokenJob(jobs[k])
  }

  /** The transfer starts a party, and fails before its own cleanup. */
  predicate LeavesStarted(cfg: Config, j: Job) {
    && !j.setUpFailed
    && match j.fault
       case FailsAt(step, _) => step.StartServer? || step.ServerPort? || step.StartClient? || step.StreamLogs?
       case NoFault => LoggingFails(cfg, j.records)
  }

  /** The start at i is settled, or the transfer leaves it and its party is still registered. */
  predicate SettledOrLeft(cfg: Config, j: Job, i: nat)
    requires i < |TransferResult(cfg, j).sent|
  {
    var t := TransferResult(cfg, j);
    t.sent[i].id == j.id && (SettledAt(t.sent, i) || (LeavesStarted(cfg, j) && t.sent[i].uri in t.left))
  }

  predicate AllSettledOrLeft(cfg: Config, j: Job) {
    var t := TransferResult(cfg, j);
    forall i :: 0 <= i < |t.sent| && Starts(t.sent[i]) ==> SettledOrLeft(cfg, j, i)
  }

  lemma {:induction false} TransferSettles(cfg: Config, j: Job)
    requires UnbrokenJob(j)
    ensures AllSettledOrLeft(cfg, j)
  {
    if !j.setUpFailed && j.fault == NoFault && !LoggingFails(cfg, j.records) {
      var t := TransferResult(cfg, j);
      CleanupReachesAll(cfg, [j.receiver, j.sender], j.id, j.own, j.own);
      assert Reverse([j.receiver, j.sender]) == [j.sender, j.receiver];
      assert t.sent[2] == Message(Receiving, j.receiver, j.id) && t.sent[5] == Message(Cleanup, j.receiver, j.id);
      assert t.sent[3] == Message(Sending, j.sender, j.id) && t.sent[4] == Message(Cleanup, j.sender, j.id);
    }
  }

  lemma {:induction false} SettledInFront(a: seq<Message>, b: seq<Message>, i: nat)
    requires i < |a| && SettledAt(a, i)
    ensures SettledAt(a + b, i)
  {
    var j :| i < j < |a| && a[j] == Message(Cleanup, a[i].uri, a[i].id);
    assert (a + b)[j] == a[j] && (a + b)[i] == a[i];
  }

  lemma {:induction false} SettledBehind(a: seq<Message>, b: seq<Message>, i: nat)
    requires i < |b| && SettledAt(b, i)
    ensures SettledAt(a + b, |a| + i)
  {
    var j :| i < j < |b| && b[j] == Message(Cleanup, b[i].uri, b[i].id);
    assert (a + b)[|a| + j] == b[j] && (a + b)[|a| + i] == b[i];
  }

  /** Transfer k leaves the party of the start to the finally block. */
  predicate LeftBy(cfg: Config, jobs: seq<Job>, left: seq<seq<string>>, k: nat, m: Message)
    requires |left| == |jobs|
  {
    k < |jobs| && LeavesStarted(cfg, jobs[k]) && m.id == jobs[k].id && m.uri in left[k]
  }

  /** The start at i of the loop is settled within the loop, or left to the finally block. */
  ghost predicate Accounted(cfg: Config, jobs: seq<Job>, sent: seq<Message>, left: seq<seq<string>>, i: nat)
    requires i < |sent| && |left| == |jobs|
  {
    SettledAt(sent, i) || exists k: nat :: LeftBy(cfg, jobs, left, k, sent[i])
  }

  ghost predicate AllAccounted(cfg: Config, jobs: seq<Job>, sent: seq<Message>, left: seq<seq<string>>)
    requires |left| == |jobs|
  {
    forall i :: 0 <= i < |sent| && Starts(sent[i]) ==> Accounted(cfg, jobs, sent, left, i)
  }

  lemma {:induction false} BeforeAccounts(cfg: Config, jobs: seq<Job>, sent: seq<Message>, left: seq<seq<string>>)
    requires jobs != [] && |left| == |jobs| - 1
    requires AllSettledOrLeft(cfg, jobs[0]) && AllAccounted(cfg, jobs[1..], sent, left)
    ensures var t := TransferResult(cfg, jobs[0]); AllAccounted(cfg, jobs, t.sent + sent, [t.left] + left)
  {
    var t := TransferResult(cfg, jobs[0]);
    var sent', left' := t.sent + sent, [t.left] + left;
    forall i | 0 <= i < |sent'| && Starts(sent'[i]) ensures Accounted(cfg, jobs, sent', left', i) {
      if i < |t.sent| {
        assert SettledOrLeft(cfg, jobs[0], i);
        if SettledAt(t.sent, i) {
          SettledInFront(t.sent, sent, i);
        } else {
          assert LeftBy(cfg, jobs, left', 0, sent'[i]);
        }
      } else {
        var r := i - |t.sent|;
        assert sent'[i] == sent[r] && Accounted(cfg, jobs[1..], sent, left, r);
        if SettledAt(sent, r) {
          SettledBehind(t.sent, sent, r);
        } else {
          var k: nat :| LeftBy(cfg, jobs[1..], left, k, sent[r]);
          assert LeftBy(cfg, jobs, left', k + 1, sent'[i]);
        }
      }
    }
  }

  lemma {:induction false} LoopAccounts(cfg: Config, jobs: seq<Job>, code: int)
    requires UnbrokenJobs(jobs)
    ensures var l := RunLoop(cfg, jobs, code); AllAccounted(cfg, jobs, l.sent, l.left)
  {
    if jobs != [] {
      var code', rest := LoopUnfolds(cfg, jobs, code);
      TransferSettles(cfg, jobs[0]);
      if !StopsLoop(cfg, jobs[0]) {
        LoopAccounts(cfg, jobs[1..], code');
      }
      BeforeAccounts(cfg, jobs, rest.sent, rest.left);
    }
  }

  lemma {:induction false} FinalSendsCleanups(cfg: Config, jobs: seq<Job>, left: seq<seq<string>>)
    requires |left| == |jobs|
    ensures forall m :: m in FinalLoop(cfg, jobs, left).0 ==> m.action == Cleanup
  {
    if jobs != [] {
      FinalSendsCleanups(cfg, jobs[1..], left[1..]);
    }
  }

  lemma {:induction false} FinalSettles(cfg: Config, jobs: seq<Job>, l: Loop, f: seq<Message>)
    requires |l.left| == |jobs| && AllAccounted(cfg, jobs, l.sent, l.left)
    requires forall m :: m in f ==> m.action == Cleanup
    requires forall k: nat, m :: LeftBy(cfg, jobs, l.left, k, m) ==> Message(Cleanup, m.uri, m.id) in f
    ensures Covered(l.sent + f)
  {
    var trace := l.sent + f;
    forall i | |l.sent| <= i < |trace| ensures !Starts(trace[i]) {
      assert trace[i] == f[i - |l.sent|];
    }
    forall i | 0 <= i < |trace| && Starts(trace[i]) ensures SettledAt(trace, i) {
      assert trace[i] == l.sent[i] && Accounted(cfg, jobs, l.sent, l.left, i);
      if SettledAt(l.sent, i) {
        SettledInFront(l.sent, f, i);
      } else {
        var k: nat :| LeftBy(cfg, jobs, l.left, k, trace[i]);
        var j :| 0 <= j < |f| && f[j] == Message(Cleanup, trace[i].uri, trace[i].id);
        assert trace[|l.sent| + j] == f[j];
      }
    }
  }

  // ---------- which runs do so ----------

  /** The finally block is left by an exception when it cleans the list up. */
  predicate LeftAt(cfg: Config, jobs: seq<Job>, left: seq<seq<string>>, i: nat)
    requires i < |jobs| == |left|
  {
    LeavesFinally(cfg, CleanupRun(cfg, left[i], jobs[i].id, jobs[i].last).raised)
  }

  lemma {:induction false} LeftAtLater(cfg: Config, jobs: seq<Job>, left: seq<seq<string>>, i: nat)
    requires i + 1 < |jobs| == |left|
    ensures LeftAt(cfg, jobs[1..], left[1..], i) <==> LeftAt(cfg, jobs, left, i + 1)
  {
    assert jobs[1..][i] == jobs[i + 1] && left[1..][i] == left[i + 1];
  }

  lemma {:induction false} CleanupIds(cfg: Config, registered: seq<string>, id: string, w: CleanupWorld)
    ensures forall m :: m in CleanupRun(cfg, registered, id, w).sent ==> m.id == id && m.action == Cleanup
  {
  }

  lemma {:induction false} FinalReaches(cfg: Config, jobs: seq<Job>, left: seq<seq<string>>, k: nat, uri: string)
    requires |left| == |jobs| && UnbrokenJobs(jobs)
    requires k < |jobs| && uri in left[k] && forall i :: 0 <= i < k ==> !LeftAt(cfg, jobs, left, i)
    ensures Message(Cleanup, uri, jobs[k].id) in FinalLoop(cfg, jobs, left).0
    decreases k
  {
    CleanupReachesAll(cfg, left[0], jobs[0].id, jobs[0].last, jobs[0].last);
    var c := CleanupRun(cfg, left[0], jobs[0].id, jobs[0].last);
    if k == 0 {
      var i :| 0 <= i < |left[0]| && left[0][i] == uri;
      var n := |left[0]|;
      assert c.sent[n - 1 - i] == Message(Cleanup, Reverse(left[0])[n - 1 - i], jobs[0].id);
      assert Message(Cleanup, uri, jobs[0].id) in c.sent;
    } else {
      assert !LeftAt(cfg, jobs, left, 0);
      forall i | 0 <= i < k - 1 ensures !LeftAt(cfg, jobs[1..], left[1..], i) {
        LeftAtLater(cfg, jobs, left, i);
      }
      FinalReaches(cfg, jobs[1..], left[1..], k - 1, uri);
    }
  }

  /** A message of the finally block is for a transfer before which the block was not left. */
  lemma {:induction false} FinalMessage(cfg: Config, jobs: seq<Job>, left: seq<seq<string>>, m: Message)
      returns (k: nat)
    requires |left| == |jobs| && m in FinalLoop(cfg, jobs, left).0
    ensures k < |jobs| && m.id == jobs[k].id && forall i :: 0 <= i < k ==> !LeftAt(cfg, jobs, left, i)
  {
    var c := CleanupRun(cfg, left[0], jobs[0].id, jobs[0].last);
    CleanupIds(cfg, left[0], jobs[0].id, jobs[0].last);
    if m in c.sent {
      k := 0;
    } else {
      k := FinalMessage(cfg, jobs[1..], left[1..], m);
      assert !LeftAt(cfg, jobs, left, 0);
      forall i | 0 < i < k + 1 ensures !LeftAt(cfg, jobs, left, i) {
        LeftAtLater(cfg, jobs, left, i - 1);
      }
      k := k + 1;
    }
  }

  /** The last cleanup of the transfer, if it is performed, leaves the finally block. */
  predicate LastCleanupLeaves(cfg: Config, j: Job) {
    LeavesFinally(cfg, CleanupRaises(cfg, LeftOver(cfg, j), j.last))
  }

  lemma {:induction false} LeftAtWhen(cfg: Config, jobs: seq<Job>, i: nat)
    requires Performed(cfg, jobs, i)
    ensures LeftAt(cfg, jobs, RunLoop(cfg, jobs, 0).left, i) <==> LastCleanupLeaves(cfg, jobs[i])
  {
    LoopLeaves(cfg, jobs, 0, i);
    TransferRaises(cfg, jobs[i]);
    RunRaises(cfg, TransferResult(cfg, jobs[i]).left, jobs[i].id, jobs[i].last);
  }

  /** No transfer that leaves a started party comes after one whose last cleanup leaves the
      finally block. */
  predicate CleansAll(cfg: Config, jobs: seq<Job>) {
    forall i, k :: 0 <= i < k < |jobs| && Performed(cfg, jobs, k) && LeavesStarted(cfg, jobs[k]) ==>
      !LastCleanupLeaves(cfg, jobs[i])
  }

  lemma {:induction false} CoveredIf(cfg: Config, jobs: seq<Job>)
    requires UnbrokenJobs(jobs) && CleansAll(cfg, jobs)
    ensures Covered(MainRun(cfg, jobs).trace)
  {
    var l := RunLoop(cfg, jobs, 0);
    var f := FinalLoop(cfg, jobs, l.left).0;
    LoopAccounts(cfg, jobs, 0);
    FinalSendsCleanups(cfg, jobs, l.left);
    forall k: nat, m | LeftBy(cfg, jobs, l.left, k, m) ensures Message(Cleanup, m.uri, m.id) in f {
      LoopLeaves(cfg, jobs, 0, k);
      forall i | 0 <= i < k ensures !LeftAt(cfg, jobs, l.left, i) {
        LeftAtWhen(cfg, jobs, i);
      }
      FinalReaches(cfg, jobs, l.left, k, m.uri);
    }
    FinalSettles(cfg, jobs, l, f);
  }

  predicate DistinctIds(jobs: seq<Job>) {
    forall i, j :: 0 <= i < j < |jobs| ==> jobs[i].id != jobs[j].id
  }

  /** The loop sends what the transfers performed send, ... */
  lemma {:induction false} LoopSends(cfg: Config, jobs: seq<Job>, code: int, k: nat, m: Message)
    requires Performed(cfg, jobs, k) && m in TransferResult(cfg, jobs[k]).sent
    ensures m in RunLoop(cfg, jobs, code).sent
  {
    var code', rest := LoopUnfolds(cfg, jobs, code);
    if k > 0 {
      LaterPerformed(cfg, jobs, k - 1);
      LoopSends(cfg, jobs[1..], code', k - 1, m);
    }
  }

  /** ... and nothing else. */
  lemma {:induction false} LoopMessage(cfg: Config, jobs: seq<Job>, code: int, m: Message) returns (k: nat)
    requires m in RunLoop(cfg, jobs, code).sent
    ensures k < |jobs| && m in TransferResult(cfg, jobs[k]).sent
  {
    var code', rest := LoopUnfolds(cfg, jobs, code);
    if m in TransferResult(cfg, jobs[0]).sent {
      k := 0;
    } else {
      k := LoopMessage(cfg, jobs[1..], code', m);
      k := k + 1;
    }
  }

  lemma {:induction false} TransferMessages(cfg: Config, j: Job)
    ensures forall m :: m in TransferResult(cfg, j).sent ==> m.id == j.id
    ensures LeavesStarted(cfg, j) ==>
              && Message(Receiving, j.receiver, j.id) in TransferResult(cfg, j).sent
              && forall m :: m in TransferResult(cfg, j).sent ==> m.action != Cleanup
  {
    if LeavesStarted(cfg, j) {
      assert TransferResult(cfg, j).sent[2] == Message(Receiving, j.receiver, j.id);
    }
  }

  /** A transfer the finally block does not get to leaves its server running. */
  lemma {:induction false} SkippedIsUncovered(cfg: Config, jobs: seq<Job>, i: nat, k: nat)
    requires DistinctIds(jobs) && i < k && Performed(cfg, jobs, k) && LeavesStarted(cfg, jobs[k])
    requires LastCleanupLeaves(cfg, jobs[i])
    ensures !Covered(MainRun(cfg, jobs).trace)
  {
    var l := RunLoop(cfg, jobs, 0);
    var m := Message(Receiving, jobs[k].receiver, jobs[k].id);
    TransferMessages(cfg, jobs[k]);
    LoopSends(cfg, jobs, 0, k, m);
    NoCleanupInLoop(cfg, jobs, k, jobs[k].receiver);
    NoCleanupInFinally(cfg, jobs, i, k, jobs[k].receiver);
    NotSettled(l.sent, FinalLoop(cfg, jobs, l.left).0, m, Message(Cleanup, jobs[k].receiver, jobs[k].id));
  }

  lemma {:induction false} NoCleanupInLoop(cfg: Config, jobs: seq<Job>, k: nat, uri: string)
    requires DistinctIds(jobs) && k < |jobs| && LeavesStarted(cfg, jobs[k])
    ensures Message(Cleanup, uri, jobs[k].id) !in RunLoop(cfg, jobs, 0).sent
  {
    var c := Message(Cleanup, uri, jobs[k].id);
    TransferMessages(cfg, jobs[k]);
    if c in RunLoop(cfg, jobs, 0).sent {
      var j := LoopMessage(cfg, jobs, 0, c);
      TransferMessages(cfg, jobs[j]);
    }
  }

  lemma {:induction false} NoCleanupInFinally(cfg: Config, jobs: seq<Job>, i: nat, k: nat, uri: string)
    requires DistinctIds(jobs) && i < k && Performed(cfg, jobs, k) && LastCleanupLeaves(cfg, jobs[i])
    ensures Message(Cleanup, uri, jobs[k].id) !in FinalLoop(cfg, jobs, RunLoop(cfg, jobs, 0).left).0
  {
    var left := RunLoop(cfg, jobs, 0).left;
    var c := Message(Cleanup, uri, jobs[k].id);
    LeftAtWhen(cfg, jobs, i);
    if c in FinalLoop(cfg, jobs, left).0 {
      var j := FinalMessage(cfg, jobs, left, c);
    }
  }

  lemma {:induction false} NotSettled(a: seq<Message>, b: seq<Message>, m: Message, c: Message)
    requires m in a && Starts(m) && c == Message(Cleanup, m.uri, m.id) && c !in a && c !in b
    ensures !Covered(a + b)
  {
    var i :| 0 <= i < |a| && a[i] == m;
    assert (a + b)[i] == m;
    forall j | 0 <= j < |a + b| ensures (a + b)[j] != c {
      assert (a + b)[j] == if j < |a| then a[j] else b[j - |a|];
    }
    assert !SettledAt(a + b, i);
  }

  /** The cleanup guarantee of one run, with or without a report and ApMon, and whatever of the
      transfers fails or is interrupted: each party that was sent a start is later sent a
      cleanup exactly if no transfer that leaves a started party comes after one whose last
      cleanup leaves the finally block. */
  lemma {:induction false} CoveredWhen(cfg: Config, jobs: seq<Job>)
    requires DistinctIds(jobs) && UnbrokenJobs(jobs)
    ensures Covered(MainRun(cfg, jobs).trace) <==> CleansAll(cfg, jobs)
  {
    if CleansAll(cfg, jobs) {
      CoveredIf(cfg, jobs);
    } else {
      var i, k :| 0 <= i < k < |jobs| && Performed(cfg, jobs, k) && LeavesStarted(cfg, jobs[k]) &&
        LastCleanupLeaves(cfg, jobs[i]);
      SkippedIsUncovered(cfg, jobs, i, k);
    }
  }

  /** In particular if no report is requested and ApMon raises nothing. */
  lemma {:induction false} QuietRunsAreCovered(cfg: Config, jobs: seq<Job>)
    requires !cfg.report && UnbrokenJobs(jobs)
    requires cfg.monitoring ==> forall k :: 0 <= k < |jobs| ==> jobs[k].last.monitor == None
    ensures Covered(MainRun(cfg, jobs).trace)
  {
    forall k | 0 <= k < |jobs| ensures !LastCleanupLeaves(cfg, jobs[k]) {
      UnbrokenRaises(cfg, LeftOver(cfg, jobs[k]), jobs[k].last);
    }
    CoveredIf(cfg, jobs);
  }

  lemma {:induction false} UnbrokenRaises(cfg: Config, n: nat, w: CleanupWorld)
    requires Unbroken(w)
    ensures CleanupRaises(cfg, n, w) == if n > 0 && cfg.monitoring then w.monitor else None
  {
    assert forall k: nat :: !SendAt(w, k).NotSent?;
  }

  /** A transfer whose server does not start, and ApMon failing after its last cleanup. */
  function Doomed(id: string): Job {
    Job("r", "s", id, false, FailsAt(StartServer, OtherError), [],
        CleanupWorld([], None), CleanupWorld([], Some(OtherError)))
  }

  function DoomedJobs(n: nat): seq<Job> {
    seq(n, k requires 0 <= k => Doomed(seq(k, _ => 'x')))
  }

  /** With a report requested or ApMon configured, a run with several transfers may leave a
      started server without any cleanup. */
  lemma {:induction false} UnsafeRunExists(cfg: Config, n: nat)
    requires n >= 2 && (cfg.report || cfg.monitoring)
    ensures |DoomedJobs(n)| == n && UnbrokenJobs(DoomedJobs(n))
    ensures !Covered(MainRun(cfg, DoomedJobs(n)).trace)
  {
    var jobs := DoomedJobs(n);
    forall i, j | 0 <= i < j < n ensures jobs[i].id != jobs[j].id {
      assert |jobs[i].id| == i && |jobs[j].id| == j;
    }
    assert Performed(cfg, jobs, 1) && LeavesStarted(cfg, jobs[1]) && LastCleanupLeaves(cfg, jobs[0]);
    CoveredWhen(cfg, jobs);
  }

  /** In every run with n transfers, whatever fails, each started party is cleaned up. */
  ghost predicate AlwaysCovered(cfg: Config, n: nat) {
    forall jobs: seq<Job> :: |jobs| == n && UnbrokenJobs(jobs) ==> Covered(MainRun(cfg, jobs).trace)
  }

  /** All runs of a configuration are covered exactly for a single transfer, or with neither a
      report file nor ApMon: writing the report always raises, and ApMon may, inside the
      finally block. */
  lemma {:induction false} CleanupGuarantee(cfg: Config, n: nat)
    ensures AlwaysCovered(cfg, n) <==> n <= 1 || (!cfg.report && !cfg.monitoring)
  {
    if n <= 1 || (!cfg.report && !cfg.monitoring) {
      forall jobs: seq<Job> | |jobs| == n && UnbrokenJobs(jobs) ensures Covered(MainRun(cfg, jobs).trace) {
        if n <= 1 {
          CoveredIf(cfg, jobs);
        } else {
          QuietRunsAreCovered(cfg, jobs);
        }
      }
    } else {
      UnsafeRunExists(cfg, n);
    }
  }

  // ---------- the exit status ----------

  /** The exit status of each class of exceptions. */
  function CodeOf(e: Exn): (code: int)
    ensures 1 <= code <= 6
  {
    match e
    case CopyError => 1
    case PortInUse => 2
    case ExecutorError => 3
    case DaemonError => 4
    case IoError => 5
    case OtherError => 5
    case Interrupt => 6
  }

  /** The transfer that decides the exit status: the one interrupted first, or else the last
      one that raises. */
  predicate Decides(cfg: Config, jobs: seq<Job>, n: nat) {
    && n < |jobs| && Raises(cfg, jobs[n]).Some?
    && (forall k :: 0 <= k < n ==> Raises(cfg, jobs[k]) != Some(Interrupt))
    && (Raises(cfg, jobs[n]) == Some(Interrupt) || forall k :: n < k < |jobs| ==> Raises(cfg, jobs[k]) == None)
  }

  /** No transfer raises. */
  predicate AllSucceed(cfg: Config, jobs: seq<Job>) {
    forall k :: 0 <= k < |jobs| ==> Raises(cfg, jobs[k]) == None
  }

  lemma {:induction false} SomeDecides(cfg: Config, jobs: seq<Job>)
    ensures AllSucceed(cfg, jobs) || exists n: nat :: Decides(cfg, jobs, n)
  {
    if jobs != [] {
      SomeDecides(cfg, jobs[1..]);
      assert forall k :: 0 <= k < |jobs| - 1 ==> jobs[1..][k] == jobs[k + 1];
      if Raises(cfg, jobs[0]) == Some(Interrupt) {
        assert Decides(cfg, jobs, 0);
      } else if n: nat :| Decides(cfg, jobs[1..], n) {
        LaterDecides(cfg, jobs, n);
      } else if Raises(cfg, jobs[0]).Some? {
        assert forall k :: 0 < k < |jobs| ==> jobs[k] == jobs[1..][k - 1];
        assert Decides(cfg, jobs, 0);
      } else {
        assert forall k :: 0 < k < |jobs| ==> jobs[k] == jobs[1..][k - 1];
      }
    }
  }

  lemma {:induction false} LaterDecides(cfg: Config, jobs: seq<Job>, n: nat)
    requires jobs != [] && Raises(cfg, jobs[0]) != Some(Interrupt)
    ensures Decides(cfg, jobs[1..], n) <==> Decides(cfg, jobs, n + 1)
  {
    assert forall k :: 0 < k < |jobs| ==> jobs[k] == jobs[1..][k - 1];
    if Decides(cfg, jobs, n + 1) {
      forall k | 0 <= k < n ensures Raises(cfg, jobs[1..][k]) != Some(Interrupt) {
        assert jobs[1..][k] == jobs[k + 1];
      }
      if Raises(cfg, jobs[n + 1]) != Some(Interrupt) {
        forall k | n < k < |jobs| - 1 ensures Raises(cfg, jobs[1..][k]) == None {
          assert jobs[1..][k] == jobs[k + 1];
        }
      }
    }
  }

  /** The status is that of the transfer that decides, which overwrites all earlier ones, or 0
      if no transfer raises; unless the program crashes, as it always does with fdtcp's logger. */
  lemma {:induction false} LastFailureDecides(cfg: Config, jobs: seq<Job>)
    ensures AllSucceed(cfg, jobs) || exists n: nat :: Decides(cfg, jobs, n)
    ensures var exit := MainRun(cfg, jobs).exit;
            && (!cfg.loggerTakesArgs ==> exit == Crash)
            && (AllSucceed(cfg, jobs) ==> exit == Crash || exit == Code(0))
            && forall n: nat :: Decides(cfg, jobs, n) ==>
                 exit == Crash || exit == Code(CodeOf(Raises(cfg, jobs[n]).value))
  {
    SomeDecides(cfg, jobs);
    if cfg.loggerTakesArgs {
      if AllSucceed(cfg, jobs) {
        NoFailureKeepsCode(cfg, jobs, 0);
      }
      forall n: nat | Decides(cfg, jobs, n) ensures RunLoop(cfg, jobs, 0).code == CodeOf(Raises(cfg, jobs[n]).value) {
        DecidesCode(cfg, jobs, 0, n);
      }
    }
  }

  lemma {:induction false} DecidesCode(cfg: Config, jobs: seq<Job>, code: int, n: nat)
    requires cfg.loggerTakesArgs && Decides(cfg, jobs, n)
    ensures RunLoop(cfg, jobs, code).code == CodeOf(Raises(cfg, jobs[n]).value)
  {
    var e := Raises(cfg, jobs[0]);
    LoopCode(cfg, jobs, code);
    assert forall k :: 0 <= k < |jobs| - 1 ==> jobs[1..][k] == jobs[k + 1];
    if n > 0 {
      LaterDecides(cfg, jobs, n - 1);
      DecidesCode(cfg, jobs[1..], if e == None then code else CodeOf(e.value), n - 1);
    } else if e != Some(Interrupt) {
      NoFailureKeepsCode(cfg, jobs[1..], CodeOf(e.value));
    }
  }

  lemma {:induction false} CodeUnfolds(cfg: Config, jobs: seq<Job>, code: int)
    requires jobs != []
    ensures var code' := CodeAfter(cfg, jobs[0], code);
            RunLoop(cfg, jobs, code).code ==
            if StopsLoop(cfg, jobs[0]) then code' else RunLoop(cfg, jobs[1..], code').code
  {
    var code', rest := LoopUnfolds(cfg, jobs, code);
  }

  lemma {:induction false} LoopCode(cfg: Config, jobs: seq<Job>, code: int)
    requires cfg.loggerTakesArgs && jobs != []
    ensures var e := Raises(cfg, jobs[0]);
            RunLoop(cfg, jobs, code).code ==
            if e == Some(Interrupt) then CodeOf(Interrupt)
            else RunLoop(cfg, jobs[1..], if e == None then code else CodeOf(e.value)).code
  {
    CodeUnfolds(cfg, jobs, code);
    HandledCode(cfg, jobs[0], code);
  }

  lemma {:induction false} HandledCode(cfg: Config, j: Job, code: int)
    requires cfg.loggerTakesArgs
    ensures StopsLoop(cfg, j) <==> Raises(cfg, j) == Some(Interrupt)
    ensures CodeAfter(cfg, j, code) == if Raises(cfg, j) == None then code else CodeOf(Raises(cfg, j).value)
  {
  }

  lemma {:induction false} NoFailureKeepsCode(cfg: Config, jobs: seq<Job>, code: int)
    requires AllSucceed(cfg, jobs)
    ensures RunLoop(cfg, jobs, code).code == code
  {
    if jobs != [] {
      CodeUnfolds(cfg, jobs, code);
      assert forall k :: 0 <= k < |jobs| - 1 ==> jobs[1..][k] == jobs[k + 1];
      NoFailureKeepsCode(cfg, jobs[1..], code);
    }
  }

  /** Transfer k's last cleanup raises what the finally block does not catch. */
  predicate FinallyRaises(cfg: Config, j: Job, n: nat) {
    CleanupRaises(cfg, n, j.last) != None && CleanupRaises(cfg, n, j.last) != Some(IoError)
  }

  lemma {:induction false} FinalLeavesWhen(cfg: Config, jobs: seq<Job>, left: seq<seq<string>>)
    requires cfg.loggerTakesArgs && |left| == |jobs| && forall k :: 0 <= k < |jobs| ==> |left[k]| <= 2
    ensures FinalLoop(cfg, jobs, left).1 <==>
            (cfg.report && jobs != []) || exists k :: 0 <= k < |jobs| && FinallyRaises(cfg, jobs[k], |left[k]|)
  {
    if jobs != [] {
      RunRaises(cfg, left[0], jobs[0].id, jobs[0].last);
      FinalLeavesWhen(cfg, jobs[1..], left[1..]);
      forall k | 0 < k < |jobs|
        ensures FinallyRaises(cfg, jobs[k], |left[k]|) <==> FinallyRaises(cfg, jobs[1..][k - 1], |left[1..][k - 1]|)
      {
        assert jobs[1..][k - 1] == jobs[k] && left[1..][k - 1] == left[k];
      }
    }
  }

  /** The program crashes exactly with fdtcp's own logger, with a report requested, or if a
      cleanup of what a transfer left registered is not sent, or followed by ApMon failing,
      with an exception other than an IOError. */
  lemma {:induction false} CrashesWhen(cfg: Config, jobs: seq<Job>)
    ensures MainRun(cfg, jobs).exit == Crash <==>
            || !cfg.loggerTakesArgs
            || (cfg.report && jobs != [])
            || exists k: nat :: Performed(cfg, jobs, k) && FinallyRaises(cfg, jobs[k], LeftOver(cfg, jobs[k]))
  {
    if cfg.loggerTakesArgs {
      var left := RunLoop(cfg, jobs, 0).left;
      forall k | 0 <= k < |jobs|
        ensures |left[k]| == if Performed(cfg, jobs, k) then LeftOver(cfg, jobs[k]) else 0
      {
        LoopLeaves(cfg, jobs, 0, k);
        TransferRaises(cfg, jobs[k]);
      }
      FinalLeavesWhen(cfg, jobs, left);
    }
  }

  /** The program exits with status 0 exactly when the logger takes what it is given, no report
      is requested, and every transfer is skipped or has no call fail and, in its own cleanup,
      every request sent and no exception from ApMon. */
  lemma {:induction false} ExitsWithZeroWhen(cfg: Config, jobs: seq<Job>)
    ensures MainRun(cfg, jobs).exit == Code(0) <==>
            && cfg.loggerTakesArgs
            && (cfg.report ==> jobs == [])
            && forall k :: 0 <= k < |jobs| ==>
                 || jobs[k].setUpFailed
                 || (&& jobs[k].fault == NoFault
                     && !SendAt(jobs[k].own, 0).NotSent? && !SendAt(jobs[k].own, 1).NotSent?
                     && (cfg.monitoring ==> jobs[k].own.monitor == None))
    ensures cfg.report && jobs != [] ==> MainRun(cfg, jobs).exit == Crash
  {
    LastFailureDecides(cfg, jobs);
    CrashesWhen(cfg, jobs);
    if cfg.loggerTakesArgs {
      assert AllSucceed(cfg, jobs) <==>
        forall k :: 0 <= k < |jobs| ==>
          jobs[k].setUpFailed || (jobs[k].fault == NoFault && CleanupRaises(cfg, 2, jobs[k].own) == None);
      assert AllSucceed(cfg, jobs) ==> forall k :: 0 <= k < |jobs| ==> LeftOver(cfg, jobs[k]) == 0;
    }
  }

  /** A transfer whose set-up failed is skipped and then recorded as a success. */
  lemma {:induction false} FailedSetUpCountsAsSuccess(cfg: Config, j: Job)
    requires cfg.loggerTakesArgs && !cfg.report && j.setUpFailed
    ensures InitialResult(j) == Some(1)
    ensures MainRun(cfg, [j]) == Run([], [Some(0)], Code(0))
  {
    assert [j][1..] == [];
    assert RunLoop(cfg, [j], 0) == Loop([], [[]], [Some(0)], 0);
    assert FinalLoop(cfg, [j], [[]]) == ([], false);
  }

  /** The outcome does not depend on what the child processes reported: a run in which every
      child failed is the same as one in which every child succeeded. */
  lemma {:induction false} ChildStatusIsIgnored(cfg: Config, jobs: seq<Job>, others: seq<Job>, code: int)
    requires cfg.loggerTakesArgs && |jobs| == |others|
    requires forall k :: 0 <= k < |jobs| ==> others[k] == jobs[k].(records := others[k].records)
    ensures RunLoop(cfg, jobs, code) == RunLoop(cfg, others, code)
    ensures MainRun(cfg, jobs) == MainRun(cfg, others)
  {
    LoopIgnoresRecords(cfg, jobs, others, code);
    LoopIgnoresRecords(cfg, jobs, others, 0);
    FinalIgnoresRecords(cfg, jobs, others, RunLoop(cfg, jobs, 0).left);
  }

  lemma {:induction false} LoopIgnoresRecords(cfg: Config, jobs: seq<Job>, others: seq<Job>, code: int)
    requires cfg.loggerTakesArgs && |jobs| == |others|
    requires forall k :: 0 <= k < |jobs| ==> others[k] == jobs[k].(records := others[k].records)
    ensures RunLoop(cfg, jobs, code) == RunLoop(cfg, others, code)
  {
    if jobs != [] {
      assert others[0] == jobs[0].(records := others[0].records);
      assert TransferResult(cfg, jobs[0]) == TransferResult(cfg, others[0]);
      assert forall k :: 0 <= k < |jobs| - 1 ==> jobs[1..][k] == jobs[k + 1] && others[1..][k] == others[k + 1];
      var t := TransferResult(cfg, jobs[0]);
      if t.raised == None {
        LoopIgnoresRecords(cfg, jobs[1..], others[1..], code);
      } else if Handle(cfg, t.raised.value).GoOn? {
        LoopIgnoresRecords(cfg, jobs[1..], others[1..], Handle(cfg, t.raised.value).code);
      } else {
        assert Untouched(jobs[1..], 6).results == Untouched(others[1..], 6).results;
      }
    }
  }

  lemma {:induction false} FinalIgnoresRecords(cfg: Config, jobs: seq<Job>, others: seq<Job>, left: seq<seq<string>>)
    requires |left| == |jobs| == |others|
    requires forall k :: 0 <= k < |jobs| ==> others[k] == jobs[k].(records := others[k].records)
    ensures FinalLoop(cfg, jobs, left) == FinalLoop(cfg, others, left)
  {
    if jobs != [] {
      assert others[0] == jobs[0].(records := others[0].records);
      assert forall k :: 0 <= k < |jobs| - 1 ==> jobs[1..][k] == jobs[k + 1] && others[1..][k] == others[k + 1];
      FinalIgnoresRecords(cfg, jobs[1..], others[1..], left[1..]);
    }
  }

  /** With fdtcp's own logger no transfer ever completes: the first output record of the child
      raises, before the child's status is seen and before the transfer's own cleanup. */
  lemma {:induction false} OwnLoggerBreaksTransfers(cfg: Config, j: Job, out: string, err: string, turns: seq<Turn>)
    requires !cfg.loggerTakesArgs && !j.setUpFailed && j.fault == NoFault
    requires turns != [] && (turns[0].outReady || turns[0].errReady) && j.records == Stream(out, err, turns)
    ensures TransferResult(cfg, j).raised == Some(OtherError) && TransferResult(cfg, j).left == [j.receiver, j.sender]
  {
    assert j.records[0] == Reads(turns[0], out, err)[0];
  }

  // ---------- which messages a transfer sends ----------

  /** The four requests of a transfer, in their order, and how far it gets with them. */
  lemma {:induction false} TransferSends(cfg: Config, j: Job)
    requires !j.setUpFailed
    ensures var sent := TransferResult(cfg, j).sent;
            var requests := [Message(Test, j.receiver, j.id), Message(Test, j.sender, j.id),
                             Message(Receiving, j.receiver, j.id), Message(Sending, j.sender, j.id)];
            var n := match j.fault
                     case NoFault => 4
                     case FailsAt(TestReceiver, _) => 1
                     case FailsAt(TestSender, _) => 2
                     case FailsAt(Resolve, _) => 2
                     case FailsAt(StartServer, _) => 3
                     case FailsAt(ServerPort, _) => 3
                     case FailsAt(StartClient, _) => 4
                     case FailsAt(StreamLogs, _) => 4;
            && n <= |sent| && sent[..n] == requests[..n]
            && forall i :: n <= i < |sent| ==> sent[i].action == Cleanup && sent[i].id == j.id
    ensures j.fault.FailsAt? ==> TransferResult(cfg, j).raised.Some? && |TransferResult(cfg, j).sent| <= 4
  {
  }

  /** A run of one transfer: the receiver and then the sender are tested, the server is started at
      the receiver and then the client at the sender, up to the call that fails; all that follows
      are cleanups. */
  lemma {:induction false} SingleRunSends(cfg: Config, j: Job)
    requires !j.setUpFailed
    ensures var trace := MainRun(cfg, [j]).trace;
            var requests := [Message(Test, j.receiver, j.id), Message(Test, j.sender, j.id),
                             Message(Receiving, j.receiver, j.id), Message(Sending, j.sender, j.id)];
            var n := match j.fault
                     case NoFault => 4
                     case FailsAt(TestReceiver, _) => 1
                     case FailsAt(TestSender, _) => 2
                     case FailsAt(Resolve, _) => 2
                     case FailsAt(StartServer, _) => 3
                     case FailsAt(ServerPort, _) => 3
                     case FailsAt(StartClient, _) => 4
                     case FailsAt(StreamLogs, _) => 4;
            && n <= |trace| && trace[..n] == requests[..n]
            && forall i :: n <= i < |trace| ==> trace[i].action == Cleanup && trace[i].id == j.id
  {
    TransferSends(cfg, j);
    SingleRun(cfg, j);
    var t := TransferResult(cfg, j);
    SameFront(t.sent, CleanupRun(cfg, t.left, j.id, j.last).sent);
  }

  lemma SameFront(a: seq<Message>, b: seq<Message>)
    ensures forall n :: 0 <= n <= |a| ==> (a + b)[..n] == a[..n]
  {
  }

  /** If cleanups can be sent, both parties get one each, the sender first, unless the test
      failed: then there are none. */
  lemma {:induction false} SingleRunCleansUp(cfg: Config, j: Job)
    requires !j.setUpFailed && UnbrokenJob(j)
    ensures var trace := MainRun(cfg, [j]).trace;
            var cleanups := [Message(Cleanup, j.sender, j.id), Message(Cleanup, j.receiver, j.id)];
            match j.fault
            case FailsAt(TestReceiver, _) => |trace| == 1
            case FailsAt(TestSender, _) => |trace| == 2
            case FailsAt(Resolve, _) => |trace| == 4 && trace[2..] == cleanups
            case FailsAt(StartServer, _) => |trace| == 5 && trace[3..] == cleanups
            case FailsAt(ServerPort, _) => |trace| == 5 && trace[3..] == cleanups
            case _ => |trace| == 6 && trace[4..] == cleanups
  {
    SingleRun(cfg, j);
    PairCleanup(cfg, j.receiver, j.sender, j.id, j.own);
    PairCleanup(cfg, j.receiver, j.sender, j.id, j.last);
    TransferLeaves(cfg, j);
  }

  /** A transfer that does not end in its own cleanup leaves both parties, once they are tested. */
  lemma {:induction false} TransferLeaves(cfg: Config, j: Job)
    requires !j.setUpFailed
    ensures var t := TransferResult(cfg, j);
            match j.fault
            case FailsAt(TestReceiver, _) => |t.sent| == 1 && t.left == []
            case FailsAt(TestSender, _) => |t.sent| == 2 && t.left == []
            case FailsAt(Resolve, _) => |t.sent| == 2 && t.left == [j.receiver, j.sender]
            case FailsAt(StartServer, _) => |t.sent| == 3 && t.left == [j.receiver, j.sender]
            case FailsAt(ServerPort, _) => |t.sent| == 3 && t.left == [j.receiver, j.sender]
            case FailsAt(_, _) => |t.sent| == 4 && t.left == [j.receiver, j.sender]
            case NoFault =>
              var c := CleanupRun(cfg, [j.receiver, j.sender], j.id, j.own);
              if LoggingFails(cfg, j.records) then |t.sent| == 4 && t.left == [j.receiver, j.sender]
              else |t.sent| == 4 + |c.sent| && t.sent[4..] == c.sent && t.left == c.left
  {
  }

  lemma {:induction false} SingleRun(cfg: Config, j: Job)
    ensures var t := TransferResult(cfg, j);
            MainRun(cfg, [j]).trace == t.sent + CleanupRun(cfg, t.left, j.id, j.last).sent
  {
    var code, rest := LoopUnfolds(cfg, [j], 0);
    var t, l := TransferResult(cfg, j), RunLoop(cfg, [j], 0);
    assert rest.sent == [] && rest.left == [];
    assert l.sent == t.sent && l.left == [t.left];
    var c := CleanupRun(cfg, t.left, j.id, j.last);
    assert FinalLoop(cfg, [j][1..], l.left[1..]) == ([], false);
    assert FinalLoop(cfg, [j], l.left).0 == c.sent;
  }

  lemma {:induction false} PairCleanup(cfg: Config, receiver: string, sender: string, id: string, w: CleanupWorld)
    requires Unbroken(w)
    ensures var c := CleanupRun(cfg, [receiver, sender], id, w);
            && c.sent == [Message(Cleanup, sender, id), Message(Cleanup, receiver, id)] && c.left == []
            && CleanupRun(cfg, [], id, w).sent == []
  {
    CleanupReachesAll(cfg, [receiver, sender], id, w, w);
    assert Reverse([receiver, sender]) == [sender, receiver];
  }

  // ---------- how a run of one transfer ends ----------

  /** Nothing goes wrong in a cleanup. */
  function Calm(): CleanupWorld {
    CleanupWorld([], None)
  }

  /** A failing test of the receiver, by its exception: with a logger that takes what it is
      given, the failure is recorded and has its own status; with fdtcp's logger, the handlers
      that log with arguments raise before they record it. */
  lemma {:induction false} FailureEndsRun(cfg: Config, r: string, s: string, id: string, e: Exn)
    requires !cfg.report
    ensures var run := MainRun(cfg, [Job(r, s, id, false, FailsAt(TestReceiver, e), [], Calm(), Calm())]);
            var code := match e
                        case CopyError => 1
                        case PortInUse => 2
                        case ExecutorError => 3
                        case DaemonError => 4
                        case IoError => 5
                        case OtherError => 5
                        case Interrupt => 6;
            && (cfg.loggerTakesArgs ==> run == Run([Message(Test, r, id)], [Some(1)], Code(code)))
            && (!cfg.loggerTakesArgs ==>
                  run == Run([Message(Test, r, id)],
                             [if e == IoError || e == OtherError || e == Interrupt then Some(1) else None], Crash))
  {
    var j := Job(r, s, id, false, FailsAt(TestReceiver, e), [], Calm(), Calm());
    SingleRun(cfg, j);
    assert TransferResult(cfg, j) == Result([Message(Test, r, id)], [], Some(e));
    SingleOutcome(cfg, j);
  }

  /** A transfer without any failure is a success, unless the logger fails on its output. */
  lemma {:induction false} SuccessEndsRun(cfg: Config, r: string, s: string, id: string, records: seq<Record>)
    requires !cfg.report
    ensures var run := MainRun(cfg, [Job(r, s, id, false, NoFault, records, Calm(), Calm())]);
            && run.trace == [Message(Test, r, id), Message(Test, s, id), Message(Receiving, r, id),
                             Message(Sending, s, id), Message(Cleanup, s, id), Message(Cleanup, r, id)]
            && (run.exit == if cfg.loggerTakesArgs then Code(0) else Crash)
            && (run.results == [Some(0)] <==>
                cfg.loggerTakesArgs || forall i :: 0 <= i < |records| ==> !records[i].StdOut? && !records[i].StdErr?)
            && (run.results == [Some(0)] || run.results == [Some(1)])
  {
    var j := Job(r, s, id, false, NoFault, records, Calm(), Calm());
    SuccessfulTrace(cfg, j);
    TransferRaises(cfg, j);
    SingleOutcome(cfg, j);
  }

  lemma {:induction false} SuccessfulTrace(cfg: Config, j: Job)
    requires !j.setUpFailed && j.fault == NoFault && UnbrokenJob(j)
    ensures MainRun(cfg, [j]).trace ==
            [Message(Test, j.receiver, j.id), Message(Test, j.sender, j.id), Message(Receiving, j.receiver, j.id),
             Message(Sending, j.sender, j.id), Message(Cleanup, j.sender, j.id), Message(Cleanup, j.receiver, j.id)]
  {
    SingleRunSends(cfg, j);
    SingleRunCleansUp(cfg, j);
    var trace := MainRun(cfg, [j]).trace;
    assert trace == trace[..4] + trace[4..];
  }

  lemma {:induction false} SingleOutcome(cfg: Config, j: Job)
    requires !cfg.report && |TransferResult(cfg, j).left| <= 2 && j.last == Calm()
    ensures var t, run := TransferResult(cfg, j), MainRun(cfg, [j]);
            && (run.exit == if cfg.loggerTakesArgs then Code(CodeAfter(cfg, j, 0)) else Crash)
            && run.results == [if t.raised == None then Some(0)
                               else if Handle(cfg, t.raised.value).Escape? then InitialResult(j) else Some(1)]
  {
    var code, rest := LoopUnfolds(cfg, [j], 0);
    var t, l := TransferResult(cfg, j), RunLoop(cfg, [j], 0);
    RunRaises(cfg, t.left, j.id, j.last);
    assert l.left == [t.left] && [j][1..] == [];
    assert FinalLoop(cfg, [j][1..], l.left[1..]) == ([], false);
  }

  /** The transfer fails when its server is started, and a cleanup of it meets no trouble. */
  predicate FailsToServe(j: Job, e: Exn) {
    !j.setUpFailed && j.fault == FailsAt(StartServer, e) && j.last == Calm()
  }

  predicate Succeeds(j: Job) {
    !j.setUpFailed && j.fault == NoFault && j.own == Calm() && j.last == Calm()
  }

  /** Two transfers, the first of which fails: the second is still performed, and what the first
      left is cleaned up at the end. */
  lemma {:induction false} FailedTransferIsCleanedUpLast(a: Job, b: Job)
    requires FailsToServe(a, ExecutorError) && Succeeds(b)
    ensures MainRun(Config(false, false, true), [a, b]) ==
            Run([Message(Test, a.receiver, a.id), Message(Test, a.sender, a.id), Message(Receiving, a.receiver, a.id),
                 Message(Test, b.receiver, b.id), Message(Test, b.sender, b.id),
                 Message(Receiving, b.receiver, b.id), Message(Sending, b.sender, b.id),
                 Message(Cleanup, b.sender, b.id), Message(Cleanup, b.receiver, b.id),
                 Message(Cleanup, a.sender, a.id), Message(Cleanup, a.receiver, a.id)],
                [Some(1), Some(0)], Code(3))
  {
    var cfg := Config(false, false, true);
    FailedResult(cfg, a, ExecutorError);
    SuccessfulResult(cfg, b);
    SecondSucceeds(cfg, a, b);
    FinalOfTwo(cfg, a, b, [a.receiver, a.sender], []);
  }

  /** The first is interrupted: the second is not performed. */
  lemma {:induction false} InterruptedRunStops(a: Job, b: Job)
    requires FailsToServe(a, Interrupt) && Succeeds(b)
    ensures MainRun(Config(false, false, true), [a, b]) ==
            Run([Message(Test, a.receiver, a.id), Message(Test, a.sender, a.id), Message(Receiving, a.receiver, a.id),
                 Message(Cleanup, a.sender, a.id), Message(Cleanup, a.receiver, a.id)],
                [Some(1), None], Code(6))
  {
    var cfg := Config(false, false, true);
    FailedResult(cfg, a, Interrupt);
    assert [a, b][1..] == [b];
    assert Untouched([b], 6) == Loop([], [[]], [None], 6);
    FinalOfTwo(cfg, a, b, [a.receiver, a.sender], []);
  }

  lemma {:induction false} FailedResult(cfg: Config, j: Job, e: Exn)
    requires FailsToServe(j, e)
    ensures TransferResult(cfg, j) ==
            Result([Message(Test, j.receiver, j.id), Message(Test, j.sender, j.id),
                    Message(Receiving, j.receiver, j.id)],
                   [j.receiver, j.sender], Some(e))
    ensures CleanupRun(cfg, [j.receiver, j.sender], j.id, j.last).sent ==
            [Message(Cleanup, j.sender, j.id), Message(Cleanup, j.receiver, j.id)]
  {
    PairCleanup(cfg, j.receiver, j.sender, j.id, j.last);
  }

  lemma {:induction false} SuccessfulResult(cfg: Config, j: Job)
    requires Succeeds(j) && cfg.loggerTakesArgs
    ensures TransferResult(cfg, j) ==
            Result([Message(Test, j.receiver, j.id), Message(Test, j.sender, j.id),
                    Message(Receiving, j.receiver, j.id), Message(Sending, j.sender, j.id),
                    Message(Cleanup, j.sender, j.id), Message(Cleanup, j.receiver, j.id)],
                   [], None)
  {
    PairCleanup(cfg, j.receiver, j.sender, j.id, j.own);
    RunRaises(cfg, [j.receiver, j.sender], j.id, j.own);
  }

  lemma {:induction false} SecondSucceeds(cfg: Config, a: Job, b: Job)
    requires cfg.loggerTakesArgs && TransferResult(cfg, a).raised == Some(ExecutorError)
    requires TransferResult(cfg, b).raised == None
    ensures var t, u := TransferResult(cfg, a), TransferResult(cfg, b);
            RunLoop(cfg, [a, b], 0) == Loop(t.sent + u.sent, [t.left, u.left], [Some(1), Some(0)], 3)
  {
    var u := TransferResult(cfg, b);
    assert [a, b][1..] == [b] && [b][1..] == [];
    assert RunLoop(cfg, [b][1..], 3) == Loop([], [], [], 3);
    assert RunLoop(cfg, [b], 3) == Loop(u.sent, [u.left], [Some(0)], 3);
  }

  lemma {:induction false} FinalOfTwo(cfg: Config, a: Job, b: Job, x: seq<string>, y: seq<string>)
    requires cfg == Config(false, false, true) && a.last == b.last == Calm() && |x| <= 2 && |y| <= 2
    ensures FinalLoop(cfg, [a, b], [x, y]) ==
            (CleanupRun(cfg, x, a.id, Calm()).sent + CleanupRun(cfg, y, b.id, Calm()).sent, false)
  {
    RunRaises(cfg, x, a.id, Calm());
    RunRaises(cfg, y, b.id, Calm());
    assert [a, b][1..] == [b] && [x, y][1..] == [y];
    var c := CleanupRun(cfg, y, b.id, Calm());
    assert FinalLoop(cfg, [b][1..], [y][1..]) == ([], false);
    assert c.sent + [] == c.sent;
    assert FinalLoop(cfg, [b], [y]) == (c.sent, false);
  }

  /** Two servers that do not start, and ApMon raising an IOError after the first one's last
      cleanup: a logger that takes what it is given lets the finally block go on to the second;
      fdtcp's logger raises. */
  lemma {:induction false} IoErrorInFinallyBlock(takesArgs: bool, a: Job, b: Job)
    requires !a.setUpFailed && a.fault == FailsAt(StartServer, OtherError)
    requires FailsToServe(b, OtherError) && a.last == CleanupWorld([], Some(IoError))
    ensures var run := MainRun(Config(false, true, takesArgs), [a, b]);
            && run.trace ==
               [Message(Test, a.receiver, a.id), Message(Test, a.sender, a.id), Message(Receiving, a.receiver, a.id),
                Message(Test, b.receiver, b.id), Message(Test, b.sender, b.id), Message(Receiving, b.receiver, b.id),
                Message(Cleanup, a.sender, a.id), Message(Cleanup, a.receiver, a.id)] +
               (if takesArgs then [Message(Cleanup, b.sender, b.id), Message(Cleanup, b.receiver, b.id)] else [])
            && run.exit == if takesArgs then Code(5) else Crash
  {
    var cfg := Config(false, true, takesArgs);
    TransferFailed(cfg, a);
    TransferFailed(cfg, b);
    BothFail(cfg, a, b);
    PairCleanup(cfg, a.receiver, a.sender, a.id, a.last);
    PairCleanup(cfg, b.receiver, b.sender, b.id, b.last);
    FinalAfterIoError(cfg, a, b, [a.receiver, a.sender], [b.receiver, b.sender]);
  }

  lemma {:induction false} TransferFailed(cfg: Config, j: Job)
    requires !j.setUpFailed && j.fault == FailsAt(StartServer, OtherError)
    ensures TransferResult(cfg, j) ==
            Result([Message(Test, j.receiver, j.id), Message(Test, j.sender, j.id),
                    Message(Receiving, j.receiver, j.id)],
                   [j.receiver, j.sender], Some(OtherError))
  {
  }

  lemma {:induction false} BothFail(cfg: Config, a: Job, b: Job)
    requires TransferResult(cfg, a).raised == Some(OtherError) && TransferResult(cfg, b).raised == Some(OtherError)
    ensures var t, u := TransferResult(cfg, a), TransferResult(cfg, b);
            RunLoop(cfg, [a, b], 0) == Loop(t.sent + u.sent, [t.left, u.left], [Some(1), Some(1)], 5)
  {
    var u := TransferResult(cfg, b);
    assert [a, b][1..] == [b] && [b][1..] == [];
    assert RunLoop(cfg, [b][1..], 5) == Loop([], [], [], 5);
    assert RunLoop(cfg, [b], 5) == Loop(u.sent, [u.left], [Some(1)], 5);
  }

  lemma {:induction false} FinalAfterIoError(cfg: Config, a: Job, b: Job, x: seq<string>, y: seq<string>)
    requires !cfg.report && cfg.monitoring && |x| == |y| == 2
    requires a.last == CleanupWorld([], Some(IoError)) && b.last == Calm()
    ensures FinalLoop(cfg, [a, b], [x, y]) ==
            (CleanupRun(cfg, x, a.id, a.last).sent +
             (if cfg.loggerTakesArgs then CleanupRun(cfg, y, b.id, b.last).sent else []), !cfg.loggerTakesArgs)
  {
    RunRaises(cfg, x, a.id, a.last);
    RunRaises(cfg, y, b.id, b.last);
    assert [a, b][1..] == [b] && [x, y][1..] == [y];
    var c, d := CleanupRun(cfg, y, b.id, b.last), CleanupRun(cfg, x, a.id, a.last);
    assert FinalLoop(cfg, [b][1..], [y][1..]) == ([], false);
    assert c.sent + [] == c.sent && d.sent + [] == d.sent;
    assert FinalLoop(cfg, [b], [y]) == (c.sent, false);
  }
}
