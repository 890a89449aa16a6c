/** Executor.executeWithLogOut: the lines of a child process are passed on while it runs, one
    per readable pipe and turn, and a status record ends the stream. A readable pipe yields
    the next line of what the child will have written to it, or "" at its end. */
module ChildOutput {
  import opened Text

  datatype Record =
    | StdOut(line: string)
    | StdErr(line: string)
    | Success(code: int)
    | Failed(code: int, output: string)

  /** One turn of the loop: the pipes select found readable, then what poll returned. */
  datatype Turn = Turn(outReady: bool, errReady: bool, poll: Option<int>)

  function FirstLine(s: string): string {
    var k := Find(s, '\n');
    if k == |s| then s else s[..k + 1]
  }

  function Rest(s: string): string {
    s[|FirstLine(s)|..]
  }

  function AfterRead(ready: bool, s: string): string {
    if ready then Rest(s) else s
  }

  function Reads(t: Turn, out: string, err: string): seq<Record> {
    (if t.outReady then [StdOut(FirstLine(out))] else []) + (if t.errReady then [StdErr(FirstLine(err))] else [])
  }

  function StatusRecord(code: int, unread: string): Record {
    if code == 0 then Success(code) else Failed(code, unread)
  }

  /** The output records of a schedule, up to the turn in which the child is seen to have exited. */
  function Chunks(out: string, err: string, turns: seq<Turn>): seq<Record> {
    if turns == [] then []
    else
      Reads(turns[0], out, err) +
      (if turns[0].poll.Some? then []
       else Chunks(AfterRead(turns[0].outReady, out), AfterRead(turns[0].errReady, err), turns[1..]))
  }

  /** What is then still unread of the child's output. */
  function Unread(out: string, turns: seq<Turn>): string {
    if turns == [] then out
    else if turns[0].poll.Some? then AfterRead(turns[0].outReady, out)
    else Unread(AfterRead(turns[0].outReady, out), turns[1..])
  }

  /** The exit code of a schedule: what poll first returned. */
  function ExitCode(turns: seq<Turn>): Option<int> {
    if turns == [] then None else if turns[0].poll.Some? then turns[0].poll else ExitCode(turns[1..])
  }

  /** All records of a schedule; one in which the child does not exit yields no status. */
  function Stream(out: string, err: string, turns: seq<Turn>): seq<Record> {
    Chunks(out, err, turns) +
    if ExitCode(turns).Some? then [StatusRecord(ExitCode(turns).value, Unread(out, turns))] else []
  }

  /** The child's two pipes, with what is still to be read from them. */
  class Executor {
    var stdout: string
    var stderr: string
    var returncode: Option<int>

    constructor (out: string, err: string)
      ensures stdout == out && stderr == err && returncode == None
    {
      stdout, stderr, returncode := out, err, None;
    }

    method ReadStdout() returns (line: string)
      modifies this`stdout
      ensures line == FirstLine(old(stdout)) && stdout == Rest(old(stdout))
    {
      line := FirstLine(stdout);
      stdout := stdout[|line|..];
    }

    method ReadStderr() returns (line: string)
      modifies this`stderr
      ensures line == FirstLine(old(stderr)) && stderr == Rest(old(stderr))
    {
      line := FirstLine(stderr);
      stderr := stderr[|line|..];
    }

    /** The generator, run to its end under a schedule in which the child exits. */
    method ExecuteWithLogOut(turns: seq<Turn>) returns (records: seq<Record>)
      requires ExitCode(turns).Some?
      modifies this
      ensures records == Stream(old(stdout), old(stderr), turns)
      ensures returncode == ExitCode(turns) && stdout == ""
    {
      records := [];
      var i := 0;
      ghost var left := turns;
      while true
        invariant 0 <= i < |turns| && left == turns[i..] && ExitCode(left) == ExitCode(turns)
        invariant records + Chunks(stdout, stderr, left) == Chunks(old(stdout), old(stderr), turns)
        invariant Unread(stdout, left) == Unread(old(stdout), turns)
        decreases |turns| - i
      {
        var t := turns[i];
        ghost var tail := if t.poll.Some? then [] else
                            Chunks(AfterRead(t.outReady, stdout), AfterRead(t.errReady, stderr), left[1..]);
        SumOfThree(records, Reads(t, stdout, stderr), tail);
        var chunk := ReadPipes(t);
        records := records + chunk;
        returncode := t.poll;
        if returncode.Some? {
          break;
        }
        left := left[1..];
        i := i + 1;
      }
      var output := stdout;
      stdout := "";
      stderr := "";
      if returncode.value == 0 {
        records := records + [Success(0)];
      } else {
        records := records + [Failed(returncode.value, output)];
      }
    }

    /** One line of every readable pipe, the output pipe first. */
    method ReadPipes(t: Turn) returns (records: seq<Record>)
      modifies this`stdout, this`stderr
      ensures records == Reads(t, old(stdout), old(stderr))
      ensures stdout == AfterRead(t.outReady, old(stdout)) && stderr == AfterRead(t.errReady, old(stderr))
    {
      records := [];
      if t.outReady {
        var line := ReadStdout();
        records := records + [StdOut(line)];
      }
      if t.errReady {
        var line := ReadStderr();
        records := records + [StdErr(line)];
      }
    }
  }

  lemma SumOfThree(a: seq<Record>, b: seq<Record>, c: seq<Record>)
    ensures a + (b + c) == (a + b) + c
    ensures c == [] ==> a + (b + c) == a + b
  {
  }

  // ---------- what the client can rely on ----------

  function OutText(records: seq<Record>): string {
    if records == [] then ""
    else (if records[0].StdOut? then records[0].line else "") + OutText(records[1..])
  }

  function ErrText(records: seq<Record>): string {
    if records == [] then ""
    else (if records[0].StdErr? then records[0].line else "") + ErrText(records[1..])
  }

  predicate IsStatus(r: Record) {
    r.Success? || r.Failed?
  }

  lemma {:induction false} TextsOfSum(a: seq<Record>, b: seq<Record>)
    ensures OutText(a + b) == OutText(a) + OutText(b)
    ensures ErrText(a + b) == ErrText(a) + ErrText(b)
  {
    if a == [] {
      assert a + b == b;
    } else {
      assert (a + b)[0] == a[0] && (a + b)[1..] == a[1..] + b;
      TextsOfSum(a[1..], b);
      SumOfStrings(if a[0].StdOut? then a[0].line else "", OutText(a[1..]), OutText(b));
      SumOfStrings(if a[0].StdErr? then a[0].line else "", ErrText(a[1..]), ErrText(b));
    }
  }

  lemma SumOfStrings(a: string, b: string, c: string)
    ensures a + (b + c) == (a + b) + c
  {
  }

  lemma {:induction false} OutOfReads(t: Turn, out: string, err: string)
    ensures OutText(Reads(t, out, err)) == if t.outReady then FirstLine(out) else ""
  {
    var a := if t.outReady then [StdOut(FirstLine(out))] else [];
    var b := if t.errReady then [StdErr(FirstLine(err))] else [];
    TextsOfSum(a, b);
  }

  lemma {:induction false} ErrOfReads(t: Turn, out: string, err: string)
    ensures ErrText(Reads(t, out, err)) == if t.errReady then FirstLine(err) else ""
  {
    var a := if t.outReady then [StdOut(FirstLine(out))] else [];
    var b := if t.errReady then [StdErr(FirstLine(err))] else [];
    TextsOfSum(a, b);
  }

  lemma {:induction false} TextsOfReads(t: Turn, out: string, err: string)
    ensures OutText(Reads(t, out, err)) + AfterRead(t.outReady, out) == out
    ensures ErrText(Reads(t, out, err)) + AfterRead(t.errReady, err) == err
  {
    OutOfReads(t, out, err);
    ErrOfReads(t, out, err);
    FirstAndRest(t.outReady, out);
    FirstAndRest(t.errReady, err);
  }

  lemma FirstAndRest(ready: bool, s: string)
    ensures (if ready then FirstLine(s) else "") + AfterRead(ready, s) == s
  {
  }

  lemma {:induction false} ChunksConserve(out: string, err: string, turns: seq<Turn>)
    ensures OutText(Chunks(out, err, turns)) + Unread(out, turns) == out
  {
    if turns != [] {
      var t := turns[0];
      var out', err' := AfterRead(t.outReady, out), AfterRead(t.errReady, err);
      TextsOfReads(t, out, err);
      if t.poll == None {
        var tail := Chunks(out', err', turns[1..]);
        ChunksConserve(out', err', turns[1..]);
        TextsOfSum(Reads(t, out, err), tail);
        SumOfStrings(OutText(Reads(t, out, err)), OutText(tail), Unread(out', turns[1..]));
      } else {
        assert Chunks(out, err, turns) == Reads(t, out, err);
      }
    }
  }

  lemma {:induction false} ErrChunksArePrefix(out: string, err: string, turns: seq<Turn>)
    ensures ErrText(Chunks(out, err, turns)) <= err
  {
    if turns != [] {
      var t := turns[0];
      var out', err' := AfterRead(t.outReady, out), AfterRead(t.errReady, err);
      TextsOfReads(t, out, err);
      if t.poll == None {
        ErrChunksArePrefix(out', err', turns[1..]);
        TextsOfSum(Reads(t, out, err), Chunks(out', err', turns[1..]));
      } else {
        assert Chunks(out, err, turns) == Reads(t, out, err);
      }
    }
  }

  lemma {:induction false} TextsOfStream(out: string, err: string, turns: seq<Turn>)
    ensures OutText(Stream(out, err, turns)) == OutText(Chunks(out, err, turns))
    ensures ErrText(Stream(out, err, turns)) == ErrText(Chunks(out, err, turns))
  {
    var last := if ExitCode(turns).Some? then [StatusRecord(ExitCode(turns).value, Unread(out, turns))] else [];
    TextsOfSum(Chunks(out, err, turns), last);
    assert OutText(last) == "" && ErrText(last) == "";
  }

  lemma {:induction false} ChunksHoldNoStatus(out: string, err: string, turns: seq<Turn>)
    ensures forall i :: 0 <= i < |Chunks(out, err, turns)| ==> !IsStatus(Chunks(out, err, turns)[i])
  {
    if turns != [] && turns[0].poll == None {
      ChunksHoldNoStatus(AfterRead(turns[0].outReady, out), AfterRead(turns[0].errReady, err), turns[1..]);
    }
  }

  /** Under every schedule the output records are an in-order prefix of what the child wrote,
      and a failure report carries exactly the part of its output not passed on before. */
  lemma {:induction false} NothingIsInventedOrReordered(out: string, err: string, turns: seq<Turn>)
    ensures var rs := Stream(out, err, turns);
            && OutText(rs) <= out && ErrText(rs) <= err
            && forall i :: 0 <= i < |rs| && rs[i].Failed? ==> OutText(rs) + rs[i].output == out
  {
    TextsOfStream(out, err, turns);
    ChunksConserve(out, err, turns);
    ErrChunksArePrefix(out, err, turns);
    ChunksHoldNoStatus(out, err, turns);
  }

  /** Once the child exits there is exactly one status record, it is the last one, and it
      reports success exactly for code 0; before, there is none. */
  lemma {:induction false} OneStatusAtTheEnd(out: string, err: string, turns: seq<Turn>)
    ensures var rs := Stream(out, err, turns);
            && (forall i :: 0 <= i < |rs| ==> (IsStatus(rs[i]) <==> ExitCode(turns).Some? && i == |rs| - 1))
            && (ExitCode(turns).Some? ==> rs != [] && rs[|rs| - 1].code == ExitCode(turns).value)
            && (ExitCode(turns).Some? ==> (rs[|rs| - 1].Success? <==> ExitCode(turns) == Some(0)))
  {
    ChunksHoldNoStatus(out, err, turns);
  }

  /** How often the output pipe is read before the child is seen to have exited. */
  function OutReads(turns: seq<Turn>): nat {
    if turns == [] then 0
    else
      (if turns[0].outReady then 1 else 0) + (if turns[0].poll.Some? then 0 else OutReads(turns[1..]))
  }

  function Concat(parts: seq<string>): string {
    if parts == [] then "" else parts[0] + Concat(parts[1..])
  }

  function Take(parts: seq<string>, n: nat): seq<string> {
    if n < |parts| then parts[..n] else parts
  }

  lemma {:induction false} LinesOfRest(s: string)
    ensures s != "" ==> Lines(s) == [FirstLine(s)] + Lines(Rest(s))
  {
  }

  /** The output passed on is the child's first lines, as many as there were reads. */
  lemma {:induction false} OutputIsFirstLines(out: string, err: string, turns: seq<Turn>)
    ensures OutText(Chunks(out, err, turns)) == Concat(Take(Lines(out), OutReads(turns)))
  {
    if turns == [] {
      assert Take(Lines(out), 0) == [];
    } else {
      var t := turns[0];
      var out', err' := AfterRead(t.outReady, out), AfterRead(t.errReady, err);
      var tail := if t.poll.Some? then [] else Chunks(out', err', turns[1..]);
      var n := if t.poll.Some? then 0 else OutReads(turns[1..]);
      assert Take(Lines(out'), 0) == [];
      if t.poll == None {
        OutputIsFirstLines(out', err', turns[1..]);
      }
      OutOfStep(t, out, err, tail);
      FirstLinesOfStep(t.outReady, out, n, OutText(tail));
    }
  }

  lemma {:induction false} FirstLinesOfStep(ready: bool, out: string, n: nat, tail: string)
    requires tail == Concat(Take(Lines(AfterRead(ready, out)), n))
    ensures (if ready then FirstLine(out) else "") + tail == Concat(Take(Lines(out), (if ready then 1 else 0) + n))
  {
    if ready {
      TakeOneMore(out, n);
    } else {
      assert "" + tail == tail;
    }
  }

  lemma {:induction false} OutOfStep(t: Turn, out: string, err: string, tail: seq<Record>)
    ensures OutText(Reads(t, out, err) + tail) == (if t.outReady then FirstLine(out) else "") + OutText(tail)
  {
    TextsOfSum(Reads(t, out, err), tail);
    OutOfReads(t, out, err);
  }

  lemma {:induction false} TakeOneMore(s: string, n: nat)
    ensures Concat(Take(Lines(s), n + 1)) == FirstLine(s) + Concat(Take(Lines(Rest(s)), n))
  {
    if s != "" {
      LinesOfRest(s);
      assert Take(Lines(s), n + 1) == [FirstLine(s)] + Take(Lines(Rest(s)), n);
    }
  }

  lemma SameTail(a: string, x: string, y: string)
    ensures a + x == a + y <==> x == y
  {
    assert (a + x)[|a|..] == x && (a + y)[|a|..] == y;
  }

  lemma {:induction false} ConcatOfLines(s: string, n: nat)
    ensures |Concat(Take(Lines(s), n))| <= |s|
    ensures Concat(Take(Lines(s), n)) == s <==> |Lines(s)| <= n
    decreases |s|
  {
    if s != "" {
      LinesOfRest(s);
      if n == 0 {
        assert Take(Lines(s), n) == [];
      } else {
        ConcatOfLines(Rest(s), n - 1);
        TakeOneMore(s, n - 1);
        SameTail(FirstLine(s), Concat(Take(Lines(Rest(s)), n - 1)), Rest(s));
        assert s == FirstLine(s) + Rest(s);
      }
    }
  }

  /** On success nothing makes up for unread output: the client has all of it exactly when the
      pipe was read at least once per line before the exit was seen. */
  lemma {:induction false} WholeOutputDelivered(out: string, err: string, turns: seq<Turn>)
    requires ExitCode(turns) == Some(0)
    ensures OutText(Stream(out, err, turns)) == out <==> |Lines(out)| <= OutReads(turns)
  {
    TextsOfStream(out, err, turns);
    OutputIsFirstLines(out, err, turns);
    ConcatOfLines(out, OutReads(turns));
  }

  /** How often the error pipe is read. */
  function ErrReads(turns: seq<Turn>): nat {
    if turns == [] then 0
    else
      (if turns[0].errReady then 1 else 0) + (if turns[0].poll.Some? then 0 else ErrReads(turns[1..]))
  }

  /** The same schedule with the two pipes exchanged. */
  function Swap(turns: seq<Turn>): (swapped: seq<Turn>)
    ensures |swapped| == |turns|
  {
    if turns == [] then []
    else [Turn(turns[0].errReady, turns[0].outReady, turns[0].poll)] + Swap(turns[1..])
  }

  lemma {:induction false} ErrorsAreSwappedOutput(out: string, err: string, turns: seq<Turn>)
    ensures ErrText(Chunks(out, err, turns)) == OutText(Chunks(err, out, Swap(turns)))
    ensures ErrReads(turns) == OutReads(Swap(turns))
  {
    if turns != [] {
      var t := turns[0];
      var out', err' := AfterRead(t.outReady, out), AfterRead(t.errReady, err);
      assert Swap(turns)[1..] == Swap(turns[1..]);
      ErrorsAreSwappedOutput(out', err', turns[1..]);
      var tail := if t.poll.Some? then [] else Chunks(out', err', turns[1..]);
      var tail' := if t.poll.Some? then [] else Chunks(err', out', Swap(turns[1..]));
      TextsOfSum(Reads(t, out, err), tail);
      OutOfStep(Swap(turns)[0], err, out, tail');
      ErrOfReads(t, out, err);
    }
  }

  /** Nothing ever makes up for unread error output, on failure neither: the client has all of
      it exactly when its pipe was read at least once per line before the exit was seen. */
  lemma {:induction false} WholeErrorsDelivered(out: string, err: string, turns: seq<Turn>)
    ensures ErrText(Stream(out, err, turns)) == Concat(Take(Lines(err), ErrReads(turns)))
    ensures ErrText(Stream(out, err, turns)) == err <==> |Lines(err)| <= ErrReads(turns)
  {
    TextsOfStream(out, err, turns);
    ErrorsAreSwappedOutput(out, err, turns);
    OutputIsFirstLines(err, out, Swap(turns));
    ConcatOfLines(err, ErrReads(turns));
  }

  /** A child that succeeds after two lines, seen to exit after the first: the second is lost. */
  lemma {:induction false} SuccessCanLoseOutput()
    ensures Stream("a\nb\n", "", [Turn(true, false, Some(0))]) == [StdOut("a\n"), Success(0)]
  {
    assert FirstLine("a\nb\n") == "a\n" by {
      var s := "a\nb\n";
      assert s[0] == 'a' && s[1..][0] == '\n';
      assert Find(s[1..], '\n') == 0;
      assert Find(s, '\n') == 1;
      assert s[..2] == "a\n";
    }
  }

  lemma {:induction false} FirstLineIs(a: string, rest: string)
    requires '\n' !in a
    ensures FirstLine(a + "\n" + rest) == a + "\n" && Rest(a + "\n" + rest) == rest
  {
    var s := a + "\n" + rest;
    FindIs(s, '\n', |a|);
    assert s[..|a| + 1] == a + "\n" && s[|a| + 1..] == rest;
  }

  /** A turn with both pipes readable passes on a line of the output, then one of the error
      output; what follows is the status with the rest of the output, or the later turns. */
  lemma {:induction false} OutputComesFirst(a: string, out: string, b: string, err: string, turns: seq<Turn>)
    requires turns != [] && turns[0].outReady && turns[0].errReady && '\n' !in a && '\n' !in b
    ensures Stream(a + "\n" + out, b + "\n" + err, turns) ==
            [StdOut(a + "\n"), StdErr(b + "\n")] +
            match turns[0].poll
            case None => Stream(out, err, turns[1..])
            case Some(code) => [if code == 0 then Success(0) else Failed(code, out)]
  {
    FirstLineIs(a, out);
    FirstLineIs(b, err);
    var t := turns[0];
    var first := [StdOut(a + "\n"), StdErr(b + "\n")];
    assert Reads(t, a + "\n" + out, b + "\n" + err) == first;
    if t.poll == None {
      var last := if ExitCode(turns).Some? then [StatusRecord(ExitCode(turns).value, Unread(out, turns[1..]))] else [];
      SumOfThree(first, Chunks(out, err, turns[1..]), last);
    }
  }

  /** A pipe at its end yields "", a turn with no pipe readable nothing; before the child is seen
      to exit, there is no status. */
  lemma {:induction false} SomeSchedule()
    ensures Stream("", "", [Turn(true, true, None), Turn(false, false, None)]) == [StdOut(""), StdErr("")]
    ensures Stream("x", "y", [Turn(false, false, None), Turn(false, true, Some(3))]) == [StdErr("y"), Failed(3, "x")]
  {
    FindIs("", '\n', 0);
    FindIs("y", '\n', 1);
    var turns := [Turn(true, true, None), Turn(false, false, None)];
    assert turns[1..][1..] == [];
    var turns' := [Turn(false, false, None), Turn(false, true, Some(3))];
    assert turns'[1..] == [Turn(false, true, Some(3))];
  }
}
