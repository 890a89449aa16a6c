/** The program from its job file to the network: what a file asks for is all that is started. */
module Program {
  import opened Text
  import opened UrlPattern
  import JobFile
  import opened TransferGroups
  import opened TransferRun

  /** The address setUp builds for the daemon of a host. */
  function Uri(host: string, port: string): string {
    "PYRO:FDTDService@" + host + ":" + port
  }

  /** The jobs are the groups, each once and in any order, with the addresses of their routes. */
  ghost predicate Plans(groups: map<string, Group>, keys: seq<string>, jobs: seq<Job>) {
    && |keys| == |jobs|
    && (forall k :: k in groups <==> k in keys)
    && (forall i, j :: 0 <= i < j < |keys| ==> keys[i] != keys[j])
    && (forall i :: 0 <= i < |keys| ==> IsJobOf(jobs[i], groups, keys[i]))
  }

  predicate IsJobOf(job: Job, groups: map<string, Group>, key: string) {
    && key in groups
    && job.sender == Uri(groups[key].route.hostSrc, groups[key].route.portSrc)
    && job.receiver == Uri(groups[key].route.hostDest, groups[key].route.portDest)
  }

  /** main: if the file does not load it ends with status 1, and otherwise performs the jobs. */
  function ProgramRun(cfg: Config, content: Option<string>, jobs: seq<Job>): Run {
    if LoadError(content).Some? then Run([], [], Code(1)) else MainRun(cfg, jobs)
  }

  /** A start is addressed to the daemon of its side. */
  predicate Fitting(m: Message, receiver: string, sender: string) {
    (m.action == Receiving ==> m.uri == receiver) && (m.action == Sending ==> m.uri == sender)
  }

  lemma {:induction false} LoopStartsJobs(cfg: Config, jobs: seq<Job>, code: int, m: Message)
    requires m in RunLoop(cfg, jobs, code).sent
    ensures exists k :: 0 <= k < |jobs| && Fitting(m, jobs[k].receiver, jobs[k].sender)
  {
    if jobs != [] {
      var t := TransferResult(cfg, jobs[0]);
      if m in t.sent {
        TransferStartsItsParties(cfg, jobs[0], m);
      } else {
        var c := if t.raised == None then code else match Handle(cfg, t.raised.value) case GoOn(c) => c case _ => code;
        assert m in RunLoop(cfg, jobs[1..], c).sent;
        LoopStartsJobs(cfg, jobs[1..], c, m);
        var k :| 0 <= k < |jobs| - 1 && Fitting(m, jobs[1..][k].receiver, jobs[1..][k].sender);
        assert jobs[k + 1] == jobs[1..][k];
      }
    }
  }

  lemma {:induction false} TransferStartsItsParties(cfg: Config, j: Job, m: Message)
    requires m in TransferResult(cfg, j).sent
    ensures Fitting(m, j.receiver, j.sender)
  {
    var client := Tests(j) + [Message(Receiving, j.receiver, j.id)] + [Message(Sending, j.sender, j.id)];
    forall m | m in client ensures Fitting(m, j.receiver, j.sender) {
    }
    match j.fault
    case FailsAt(step, _) => assert m in client;
    case NoFault =>
      var c := CleanupRun(cfg, [j.receiver, j.sender], j.id, j.own);
      assert forall m :: m in c.sent ==> m.action == Cleanup;
      assert m in client || m in c.sent;
  }

  /** A file with a line that is not a request starts nothing; otherwise every server is
      started at the destination and every client at the source of some line of the file. */
  lemma {:induction false} OnlyRequestsAreStarted(cfg: Config, content: Option<string>, keys: seq<string>,
                                                  jobs: seq<Job>, m: Message)
    requires LoadError(content) == None ==> Plans(AddAll(ParseLines(Lines(content.value)).value), keys, jobs)
    requires m in ProgramRun(cfg, content, jobs).trace && Starts(m)
    ensures && content.Some?
            && (forall i :: 0 <= i < |Lines(content.value)| ==> IsRequestLine(Lines(content.value)[i]))
            && exists r :: r in ParseLines(Lines(content.value)).value &&
                 Fitting(m, Uri(r.route.hostDest, r.route.portDest), Uri(r.route.hostSrc, r.route.portSrc))
  {
    LoadsWhenAllLinesDo(content);
    var rs := ParseLines(Lines(content.value)).value;
    var l := RunLoop(cfg, jobs, 0);
    FinalSendsCleanups(cfg, jobs, l.left);
    LoopStartsJobs(cfg, jobs, 0, m);
    var k :| 0 <= k < |jobs| && Fitting(m, jobs[k].receiver, jobs[k].sender);
    var key := keys[k];
    assert IsJobOf(jobs[k], AddAll(rs), key);
    StablePartition(rs, key);
    WithKeyNonEmpty(rs, key);
    var r := WithKey(rs, key)[0];
    assert r in rs && r.route == AddAll(rs)[key].route;
  }

  /** A file that does not load sends nothing, has no results and ends the program with status 1;
      any other is performed. */
  lemma {:induction false} BadFileEndsWithOne(cfg: Config, content: Option<string>, jobs: seq<Job>)
    ensures ProgramRun(cfg, content, jobs) ==
            if && content.Some? && content.value != ""
               && forall i :: 0 <= i < |Lines(content.value)| ==> IsRequestLine(Lines(content.value)[i])
            then MainRun(cfg, jobs)
            else Run([], [], Code(1))
  {
    LoadsWhenAllLinesDo(content);
  }

  /** The address of a daemon, written out. */
  lemma {:induction false} SomeUri()
    ensures Uri("h", "1") == "PYRO:FDTDService@h:1"
  {
  }

  /** A file of one line, from a port of host a to one of host b, with nothing failing: what the
      program sends, and to which addresses. */
  lemma {:induction false} OneLineRun(u: string, v: string, f: string, g: string, key: string, j: Job)
    requires IsWord(u) && IsWord(v) && Match(u) == Some(Url("a", "1", f)) && Match(v) == Some(Url("b", "2", g))
    requires Plans(AddAll([Request(Route("a", "1", "b", "2"), f, g)]), [key], [j]) && Succeeds(j)
    ensures var r, s := "PYRO:FDTDService@b:2", "PYRO:FDTDService@a:1";
            ProgramRun(Config(false, false, true), Some(u + " " + v), [j]) ==
            Run([Message(Test, r, j.id), Message(Test, s, j.id), Message(Receiving, r, j.id),
                 Message(Sending, s, j.id), Message(Cleanup, s, j.id), Message(Cleanup, r, j.id)], [Some(0)], Code(0))
  {
    OneLineFile(u, v, Request(Route("a", "1", "b", "2"), f, g));
    JobOfOne(Request(Route("a", "1", "b", "2"), f, g), key, j);
    SuccessfulTrace(Config(false, false, true), j);
    SuccessfulResult(Config(false, false, true), j);
    SingleOutcome(Config(false, false, true), j);
  }

  lemma {:induction false} JobOfOne(r: Request, key: string, j: Job)
    requires Plans(AddAll([r]), [key], [j])
    ensures j.receiver == "PYRO:FDTDService@" + r.route.hostDest + ":" + r.route.portDest
    ensures j.sender == "PYRO:FDTDService@" + r.route.hostSrc + ":" + r.route.portSrc
    ensures r.route == Route("a", "1", "b", "2") ==>
              j.receiver == "PYRO:FDTDService@b:2" && j.sender == "PYRO:FDTDService@a:1"
  {
    var groups := AddAll([r]);
    assert [r][..0] == [];
    assert AddAll([r]) == Add(AddAll([]), r) == map[Key(r.route) := Group(r.route, [FileEntry(r)])];
    assert IsJobOf([j][0], groups, [key][0]);
    assert groups[key].route == r.route;
    if r.route == Route("a", "1", "b", "2") {
      assert "PYRO:FDTDService@" + "b" + ":" + "2" == "PYRO:FDTDService@b:2";
      assert "PYRO:FDTDService@" + "a" + ":" + "1" == "PYRO:FDTDService@a:1";
    }
  }

  lemma {:induction false} OneLineFile(u: string, v: string, r: Request)
    requires IsWord(u) && IsWord(v) && ParseRequest(u, v) == Ok(r)
    ensures ParseLines(Lines(u + " " + v)) == Ok([r]) && LoadError(Some(u + " " + v)) == None
  {
    var t := JobFile.Task(u, v);
    SpecOfOne(t);
    assert JobFile.IsPrintable([t][0]);
    JobFile.RoundTrip([t]);
    LinesParse(Lines(u + " " + v), [t], [r]);
  }
}
