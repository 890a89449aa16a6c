/** The end of a transfer job in the PhEDEx backend (fdt_job_done): the report file is read
    line by line through a two-level index of the job's tasks. */
module JobReport {
  import opened Text

  datatype Task = Task(id: string, fromPfn: string, toPfn: string)

  datatype Status = Status(code: string, detail: string)

  /** A well-formed report line. */
  datatype Entry = Entry(fromPfn: string, toPfn: string, status: Status)

  /** What is reported for a task; None stands for the command's own result. */
  datatype Completion = Completion(id: string, status: Option<Status>)

  // ---------- reading the report ----------

  predicate Truthy(s: string) {
    s != "" && s != "0"
  }

  function DropTrailingEmpty(parts: seq<string>): seq<string> {
    if parts != [] && parts[|parts| - 1] == "" then DropTrailingEmpty(parts[..|parts| - 1]) else parts
  }

  /** split(/\n/, content || ''). */
  function ReportLines(content: string): seq<string> {
    if Truthy(content) then DropTrailingEmpty(Split(content, '\n')) else []
  }

  /** split(/\s+/): unlike a word split, leading whitespace yields an empty first field. */
  function Fields(line: string): seq<string> {
    var words := Words(line);
    if words != [] && IsSpace(line[0]) then [""] + words else words
  }

  /** A line with fewer than three fields, or a false name, is garbage. */
  function ReadEntry(line: string): Option<Entry> {
    var f := Fields(line);
    if |f| >= 3 && Truthy(f[0]) && Truthy(f[1]) then Some(Entry(f[0], f[1], Status(f[2], Join(f[3..], " ")))) else None
  }

  /** A line printed from its fields, joined by spaces, is read as the entry of those fields;
      the same line with a space in front is garbage. */
  lemma {:induction false} PrintedEntryIsRead(e: Entry, rest: seq<string>)
    requires IsWord(e.fromPfn) && IsWord(e.toPfn) && IsWord(e.status.code)
    requires e.fromPfn != "0" && e.toPfn != "0"
    requires (forall i :: 0 <= i < |rest| ==> IsWord(rest[i])) && e.status.detail == Join(rest, " ")
    ensures var line := Join([e.fromPfn, e.toPfn, e.status.code] + rest, " ");
            ReadEntry(line) == Some(e) && ReadEntry(" " + line) == None
  {
    var words := [e.fromPfn, e.toPfn, e.status.code] + rest;
    var line := Join(words, " ");
    WordsOfJoin(words);
    assert words[3..] == rest;
    assert line[0] == words[0][0];
    assert (" " + line)[1..] == line;
    assert Words(" " + line) == words;
  }

  // ---------- the reference: linear scans ----------

  /** The task a pair of names stands for: the last one that has it. */
  function Owner(tasks: seq<Option<Task>>, from: string, to: string): Option<string> {
    if tasks == [] then None
    else
      var last := tasks[|tasks| - 1];
      if last.Some? && last.value.fromPfn == from && last.value.toPfn == to then Some(last.value.id)
      else Owner(tasks[..|tasks| - 1], from, to)
  }

  /** The last entry for a task, by its id. */
  function StatusOf(tasks: seq<Option<Task>>, lines: seq<string>, id: string): Option<Status> {
    if lines == [] then None
    else
      match ReadEntry(lines[|lines| - 1])
      case Some(e) =>
        if Owner(tasks, e.fromPfn, e.toPfn) == Some(id) then Some(e.status)
        else StatusOf(tasks, lines[..|lines| - 1], id)
      case None => StatusOf(tasks, lines[..|lines| - 1], id)
  }

  /** The last entry for a pair of names, with no index at all. */
  function LastEntry(lines: seq<string>, from: string, to: string): Option<Status> {
    if lines == [] then None
    else
      match ReadEntry(lines[|lines| - 1])
      case Some(e) =>
        if e.fromPfn == from && e.toPfn == to then Some(e.status)
        else LastEntry(lines[..|lines| - 1], from, to)
      case None => LastEntry(lines[..|lines| - 1], from, to)
  }

  function Completions(tasks: seq<Option<Task>>, lines: seq<string>): seq<Completion> {
    CompletionsOf(tasks, tasks, lines)
  }

  function CompletionsOf(some: seq<Option<Task>>, tasks: seq<Option<Task>>, lines: seq<string>): seq<Completion> {
    if some == [] then []
    else
      var front := CompletionsOf(some[..|some| - 1], tasks, lines);
      match some[|some| - 1]
      case None => front
      case Some(t) => front + [Completion(t.id, StatusOf(tasks, lines, t.id))]
  }

  // ---------- the two-level index ----------

  type Index = map<string, map<string, string>>

  predicate Has(index: Index, from: string, to: string) {
    from in index && to in index[from]
  }

  ghost predicate Indexes(index: Index, tasks: seq<Option<Task>>) {
    forall from, to ::
      && (Has(index, from, to) <==> Owner(tasks, from, to).Some?)
      && (Has(index, from, to) ==> Owner(tasks, from, to) == Some(index[from][to]))
  }

  ghost predicate Collects(statuses: map<string, Status>, tasks: seq<Option<Task>>, lines: seq<string>) {
    forall id ::
      && (id in statuses <==> StatusOf(tasks, lines, id).Some?)
      && (id in statuses ==> StatusOf(tasks, lines, id) == Some(statuses[id]))
  }

  method BuildIndex(tasks: seq<Option<Task>>) returns (index: Index)
    ensures Indexes(index, tasks)
  {
    index := map[];
    for i := 0 to |tasks|
      invariant Indexes(index, tasks[..i])
    {
      assert tasks[..i + 1][..i] == tasks[..i];
      if tasks[i].Some? {
        var t := tasks[i].value;
        var inner := if t.fromPfn in index then index[t.fromPfn] else map[];
        index := index[t.fromPfn := inner[t.toPfn := t.id]];
      }
    }
    assert tasks[..|tasks|] == tasks;
  }

  method ReadReport(tasks: seq<Option<Task>>, lines: seq<string>) returns (statuses: map<string, Status>)
    ensures Collects(statuses, tasks, lines)
  {
    var index := BuildIndex(tasks);
    statuses := map[];
    for i := 0 to |lines|
      invariant Indexes(index, tasks)
      invariant Collects(statuses, tasks, lines[..i])
    {
      assert lines[..i + 1][..i] == lines[..i];
      var entry := ReadEntry(lines[i]);
      if entry.Some? {
        var e := entry.value;
        // testing for the inner key creates the outer one
        if e.fromPfn !in index {
          index := index[e.fromPfn := map[]];
        }
        if e.toPfn in index[e.fromPfn] {
          statuses := statuses[index[e.fromPfn][e.toPfn] := e.status];
        }
      }
    }
    assert lines[..|lines|] == lines;
  }

  /** fdt_job_done, for any tasks (in the order of the hash) and any report, which may be
      missing or empty. */
  method JobDone(tasks: seq<Option<Task>>, report: Option<string>) returns (done: seq<Completion>)
    ensures done == Completions(tasks, if report.Some? then ReportLines(report.value) else [])
  {
    var statuses: map<string, Status> := map[];
    ghost var lines: seq<string> := [];
    if report.Some? && report.value != "" {
      statuses := ReadReport(tasks, ReportLines(report.value));
      lines := ReportLines(report.value);
    }
    done := [];
    for i := 0 to |tasks|
      invariant Collects(statuses, tasks, lines)
      invariant done == CompletionsOf(tasks[..i], tasks, lines)
    {
      assert tasks[..i + 1][..i] == tasks[..i];
      if tasks[i].Some? {
        var id := tasks[i].value.id;
        done := done + [Completion(id, if id in statuses then Some(statuses[id]) else None)];
      }
    }
    assert tasks[..|tasks|] == tasks;
  }

  // ---------- what the scans mean ----------

  /** No other task has this task's id or its pair of names. */
  predicate Distinguished(tasks: seq<Option<Task>>, n: nat)
    requires n < |tasks| && tasks[n].Some?
  {
    forall i :: 0 <= i < |tasks| && i != n && tasks[i].Some? ==>
      && tasks[i].value.id != tasks[n].value.id
      && (tasks[i].value.fromPfn != tasks[n].value.fromPfn || tasks[i].value.toPfn != tasks[n].value.toPfn)
  }

  lemma {:induction false} OwnerIsTask(tasks: seq<Option<Task>>, from: string, to: string) returns (n: nat)
    ensures Owner(tasks, from, to).Some? ==>
              && n < |tasks| && tasks[n].Some?
              && tasks[n].value == Task(Owner(tasks, from, to).value, from, to)
              && forall i :: n < i < |tasks| && tasks[i].Some? ==>
                   tasks[i].value.fromPfn != from || tasks[i].value.toPfn != to
    ensures Owner(tasks, from, to) == None ==>
              forall i :: 0 <= i < |tasks| && tasks[i].Some? ==>
                tasks[i].value.fromPfn != from || tasks[i].value.toPfn != to
  {
    if tasks == [] {
      n := 0;
    } else {
      var last := tasks[|tasks| - 1];
      if last.Some? && last.value.fromPfn == from && last.value.toPfn == to {
        n := |tasks| - 1;
      } else {
        var front := tasks[..|tasks| - 1];
        n := OwnerIsTask(front, from, to);
        assert forall i :: 0 <= i < |front| ==> tasks[i] == front[i];
      }
    }
  }

  /** A report line can name the pair: words, and not the false "0". */
  predicate CanBeNamed(from: string, to: string) {
    IsWord(from) && IsWord(to) && from != "0" && to != "0"
  }

  /** Its own pair of names, if a line can name it, stands for the task, and no other such pair
      stands for the task's id. */
  predicate SeesItsLines(tasks: seq<Option<Task>>, t: Task) {
    && (CanBeNamed(t.fromPfn, t.toPfn) ==> Owner(tasks, t.fromPfn, t.toPfn) == Some(t.id))
    && forall i :: 0 <= i < |tasks| && tasks[i].Some? ==> !AlsoStandsFor(tasks, t, tasks[i].value)
  }

  /** The names of the other task are not this task's, but stand for its id. */
  predicate AlsoStandsFor(tasks: seq<Option<Task>>, t: Task, other: Task) {
    && CanBeNamed(other.fromPfn, other.toPfn)
    && (other.fromPfn != t.fromPfn || other.toPfn != t.toPfn)
    && Owner(tasks, other.fromPfn, other.toPfn) == Some(t.id)
  }

  lemma {:induction false} EntriesCanBeNamed(line: string)
    ensures ReadEntry(line).Some? ==> CanBeNamed(ReadEntry(line).value.fromPfn, ReadEntry(line).value.toPfn)
  {
    WordsAreWords(line);
  }

  /** Whatever the report holds, the index gives the task the last well-formed line for its
      names. */
  ghost predicate AlwaysAgrees(tasks: seq<Option<Task>>, t: Task) {
    forall lines :: StatusOf(tasks, lines, t.id) == LastEntry(lines, t.fromPfn, t.toPfn)
  }

  /** The index agrees with the scan on all reports exactly if the task's names stand for it
      and for no other task, and no other names stand for its id. */
  lemma {:induction false} IndexAgreesWhen(tasks: seq<Option<Task>>, t: Task)
    ensures AlwaysAgrees(tasks, t) <==> SeesItsLines(tasks, t)
  {
    if SeesItsLines(tasks, t) {
      forall lines ensures StatusOf(tasks, lines, t.id) == LastEntry(lines, t.fromPfn, t.toPfn) {
        ScanFollows(tasks, t, lines);
      }
    } else if CanBeNamed(t.fromPfn, t.toPfn) && Owner(tasks, t.fromPfn, t.toPfn) != Some(t.id) {
      OneLine(tasks, t, t.fromPfn, t.toPfn);
    } else {
      var i :| 0 <= i < |tasks| && tasks[i].Some? && AlsoStandsFor(tasks, t, tasks[i].value);
      OneLine(tasks, t, tasks[i].value.fromPfn, tasks[i].value.toPfn);
    }
  }

  /** A report of the single line for a pair of names. */
  lemma {:induction false} OneLine(tasks: seq<Option<Task>>, t: Task, from: string, to: string)
    requires CanBeNamed(from, to)
    requires (Owner(tasks, from, to) == Some(t.id)) != (from == t.fromPfn && to == t.toPfn)
    ensures !AlwaysAgrees(tasks, t)
  {
    var e := Entry(from, to, Status("1", ""));
    PrintedEntryIsRead(e, []);
    var line := Join([from, to, "1"] + [], " ");
    var lines := [line];
    assert ReadEntry(lines[0]) == Some(e) && lines[..0] == [];
    assert StatusOf(tasks, [], t.id) == None && LastEntry([], t.fromPfn, t.toPfn) == None;
    assert StatusOf(tasks, lines, t.id) != LastEntry(lines, t.fromPfn, t.toPfn);
  }

  lemma {:induction false} ScanFollows(tasks: seq<Option<Task>>, t: Task, lines: seq<string>)
    requires SeesItsLines(tasks, t)
    ensures StatusOf(tasks, lines, t.id) == LastEntry(lines, t.fromPfn, t.toPfn)
  {
    if lines != [] {
      ScanFollows(tasks, t, lines[..|lines| - 1]);
      var entry := ReadEntry(lines[|lines| - 1]);
      EntriesCanBeNamed(lines[|lines| - 1]);
      if entry.Some? {
        var m := OwnerIsTask(tasks, entry.value.fromPfn, entry.value.toPfn);
        assert Owner(tasks, entry.value.fromPfn, entry.value.toPfn).Some? ==>
                 tasks[m].value.fromPfn == entry.value.fromPfn && tasks[m].value.toPfn == entry.value.toPfn;
      }
    }
  }

  /** A task distinguished by id and names gets the last well-formed line for its own names. */
  lemma {:induction false} IndexAgreesWithScan(tasks: seq<Option<Task>>, n: nat, lines: seq<string>)
    requires n < |tasks| && tasks[n].Some? && Distinguished(tasks, n)
    ensures StatusOf(tasks, lines, tasks[n].value.id) == LastEntry(lines, tasks[n].value.fromPfn, tasks[n].value.toPfn)
  {
    var t := tasks[n].value;
    var m := OwnerIsTask(tasks, t.fromPfn, t.toPfn);
    forall i | 0 <= i < |tasks| && tasks[i].Some? ensures !AlsoStandsFor(tasks, t, tasks[i].value) {
      var k := OwnerIsTask(tasks, tasks[i].value.fromPfn, tasks[i].value.toPfn);
    }
    ScanFollows(tasks, t, lines);
  }

  /** The tasks proper: the hash may hold undefined ones. */
  function Present(some: seq<Option<Task>>): seq<Task> {
    if some == [] then []
    else
      var front := Present(some[..|some| - 1]);
      if some[|some| - 1].Some? then front + [some[|some| - 1].value] else front
  }

  /** Each task gets exactly one completion, in the tasks' order, by its id. */
  lemma {:induction false} OneCompletionEach(some: seq<Option<Task>>, tasks: seq<Option<Task>>, lines: seq<string>)
    ensures |CompletionsOf(some, tasks, lines)| == |Present(some)|
    ensures forall i :: 0 <= i < |Present(some)| ==>
              CompletionsOf(some, tasks, lines)[i] ==
              Completion(Present(some)[i].id, StatusOf(tasks, lines, Present(some)[i].id))
    ensures forall i :: 0 <= i < |Present(some)| ==> Some(Present(some)[i]) in some
  {
    if some != [] {
      OneCompletionEach(some[..|some| - 1], tasks, lines);
    }
  }

  /** The completions of a scan without any index. */
  function ScanCompletions(some: seq<Option<Task>>, lines: seq<string>): seq<Completion> {
    if some == [] then []
    else
      var front := ScanCompletions(some[..|some| - 1], lines);
      match some[|some| - 1]
      case None => front
      case Some(t) => front + [Completion(t.id, LastEntry(lines, t.fromPfn, t.toPfn))]
  }

  /** On all reports, the job's completions are those of the scan exactly if each of its tasks
      sees its own lines and no others; distinct ids and pairs of names are a special case. */
  lemma {:induction false} JobCompletionsWhen(tasks: seq<Option<Task>>)
    ensures (forall lines :: Completions(tasks, lines) == ScanCompletions(tasks, lines)) <==>
            forall i :: 0 <= i < |tasks| && tasks[i].Some? ==> SeesItsLines(tasks, tasks[i].value)
  {
    if forall i :: 0 <= i < |tasks| && tasks[i].Some? ==> SeesItsLines(tasks, tasks[i].value) {
      forall lines ensures Completions(tasks, lines) == ScanCompletions(tasks, lines) {
        SameCompletions(tasks, tasks, lines);
      }
    } else {
      var i :| 0 <= i < |tasks| && tasks[i].Some? && !SeesItsLines(tasks, tasks[i].value);
      var t := tasks[i].value;
      IndexAgreesWhen(tasks, t);
      var lines :| StatusOf(tasks, lines, t.id) != LastEntry(lines, t.fromPfn, t.toPfn);
      OtherCompletions(tasks, tasks, lines, i);
    }
  }

  lemma {:induction false} SameCompletions(some: seq<Option<Task>>, tasks: seq<Option<Task>>, lines: seq<string>)
    requires forall i :: 0 <= i < |some| && some[i].Some? ==> SeesItsLines(tasks, some[i].value)
    ensures CompletionsOf(some, tasks, lines) == ScanCompletions(some, lines)
  {
    if some != [] {
      var front, last := some[..|some| - 1], some[|some| - 1];
      assert forall i :: 0 <= i < |front| ==> front[i] == some[i];
      SameCompletions(front, tasks, lines);
      if last.Some? {
        ScanFollows(tasks, last.value, lines);
      }
    }
  }

  lemma {:induction false} OtherCompletions(some: seq<Option<Task>>, tasks: seq<Option<Task>>,
                                            lines: seq<string>, i: nat)
    requires i < |some| && some[i].Some?
    requires StatusOf(tasks, lines, some[i].value.id) != LastEntry(lines, some[i].value.fromPfn, some[i].value.toPfn)
    ensures CompletionsOf(some, tasks, lines) != ScanCompletions(some, lines)
  {
    var front, last := some[..|some| - 1], some[|some| - 1];
    var a, b := CompletionsOf(front, tasks, lines), ScanCompletions(front, lines);
    SameLength(front, tasks, lines);
    if i < |front| {
      assert front[i] == some[i];
      OtherCompletions(front, tasks, lines, i);
      if last.Some? {
        var t := last.value;
        assert (a + [Completion(t.id, StatusOf(tasks, lines, t.id))])[..|a|] == a;
        assert (b + [Completion(t.id, LastEntry(lines, t.fromPfn, t.toPfn))])[..|b|] == b;
      }
    } else {
      assert CompletionsOf(some, tasks, lines)[|a|].status != ScanCompletions(some, lines)[|a|].status;
    }
  }

  lemma {:induction false} SameLength(some: seq<Option<Task>>, tasks: seq<Option<Task>>, lines: seq<string>)
    ensures |CompletionsOf(some, tasks, lines)| == |ScanCompletions(some, lines)|
  {
    if some != [] {
      SameLength(some[..|some| - 1], tasks, lines);
    }
  }

  /** In a job of distinct ids and distinct pairs of names each task gets one completion, with
      the last well-formed line for its names, or the command's own result if there is none. */
  lemma {:induction false} JobCompletions(tasks: seq<Option<Task>>, lines: seq<string>)
    requires forall n :: 0 <= n < |tasks| && tasks[n].Some? ==> Distinguished(tasks, n)
    ensures |Completions(tasks, lines)| == |Present(tasks)|
    ensures forall i :: 0 <= i < |Present(tasks)| ==>
              var t := Present(tasks)[i];
              Completions(tasks, lines)[i] == Completion(t.id, LastEntry(lines, t.fromPfn, t.toPfn))
  {
    OneCompletionEach(tasks, tasks, lines);
    forall i | 0 <= i < |Present(tasks)|
      ensures var t := Present(tasks)[i]; StatusOf(tasks, lines, t.id) == LastEntry(lines, t.fromPfn, t.toPfn)
    {
      var n :| 0 <= n < |tasks| && tasks[n] == Some(Present(tasks)[i]);
      IndexAgreesWithScan(tasks, n, lines);
    }
  }

  /** A line that names no task of the job. */
  predicate Garbage(tasks: seq<Option<Task>>, line: string) {
    match ReadEntry(line)
    case None => true
    case Some(e) => Owner(tasks, e.fromPfn, e.toPfn) == None
  }

  function WithoutGarbage(tasks: seq<Option<Task>>, lines: seq<string>): seq<string> {
    if lines == [] then []
    else
      var front := WithoutGarbage(tasks, lines[..|lines| - 1]);
      if Garbage(tasks, lines[|lines| - 1]) then front else front + [lines[|lines| - 1]]
  }

  /** Garbage lines never change the outcome. */
  lemma {:induction false} GarbageIsIgnored(tasks: seq<Option<Task>>, lines: seq<string>, id: string)
    ensures StatusOf(tasks, WithoutGarbage(tasks, lines), id) == StatusOf(tasks, lines, id)
  {
    if lines != [] {
      GarbageIsIgnored(tasks, lines[..|lines| - 1], id);
      var front := WithoutGarbage(tasks, lines[..|lines| - 1]);
      assert (front + [lines[|lines| - 1]])[..|front|] == front;
    }
  }

  /** Two tasks with the same names: only the last one in the hash sees the report. */
  lemma {:induction false} SharedNamesHideATask(a: string, b: string, from: string, to: string, lines: seq<string>)
    requires a != b
    ensures StatusOf([Some(Task(a, from, to)), Some(Task(b, from, to))], lines, a) == None
    ensures StatusOf([Some(Task(a, from, to)), Some(Task(b, from, to))], lines, b) == LastEntry(lines, from, to)
  {
    var tasks := [Some(Task(a, from, to)), Some(Task(b, from, to))];
    if lines != [] {
      SharedNamesHideATask(a, b, from, to, lines[..|lines| - 1]);
      var entry := ReadEntry(lines[|lines| - 1]);
      if entry.Some? {
        var m := OwnerIsTask(tasks, entry.value.fromPfn, entry.value.toPfn);
        assert tasks[1].Some?;
      }
    }
  }

  // ---------- whole reports ----------

  lemma {:induction false} NothingToDrop(lines: seq<string>)
    requires lines == [] || lines[|lines| - 1] != ""
    ensures DropTrailingEmpty(lines) == lines && DropTrailingEmpty(lines + [""]) == lines
  {
    assert (lines + [""])[..|lines|] == lines;
  }

  /** A report of several lines, with or without a newline at its end, is read line by line; only
      one that is just the digit 0 counts as empty. */
  lemma {:induction false} ReportIsItsLines(lines: seq<string>)
    requires forall i :: 0 <= i < |lines| ==> lines[i] != "" && '\n' !in lines[i]
    ensures ReportLines(Join(lines, "\n") + "\n") == lines
    ensures ReportLines(Join(lines, "\n")) == lines <==> lines != ["0"]
  {
    NothingToDrop(lines);
    if lines == [] {
      SplitFirst("", "", '\n');
      assert "" + "\n" + "" == "\n";
    } else {
      JoinOneMore(lines, "\n", "");
      SplitJoin(lines, '\n');
      SplitJoin(lines + [""], '\n');
      SomeLines(lines, Join(lines, "\n"));
    }
  }

  lemma {:induction false} SomeLines(lines: seq<string>, text: string)
    requires lines != [] && lines[|lines| - 1] != "" && DropTrailingEmpty(lines) == lines
    requires Split(text, '\n') == lines && DropTrailingEmpty(lines + [""]) == lines
    requires Split(text + "\n" + "", '\n') == lines + [""]
    ensures ReportLines(text + "\n") == lines
    ensures ReportLines(text) == lines <==> lines != ["0"]
  {
    assert text + "\n" + "" == text + "\n";
    assert (text + "\n")[|text|] == '\n';
    SplitFirst("", "", '\n');
    SplitFirst("0", "", '\n');
    assert lines == ["0"] ==> text == "0" by {
      if lines == ["0"] {
        assert Find(text, '\n') == |text|;
      }
    }
  }

  /** A line as the copy command prints it. */
  function LineOf(e: Entry): string {
    e.fromPfn + " " + e.toPfn + " " + e.status.code + if e.status.detail == "" then "" else " " + e.status.detail
  }

  /** Its fields are words, and its detail is words with single spaces between them. */
  predicate IsReported(e: Entry) {
    && IsWord(e.fromPfn) && IsWord(e.toPfn) && IsWord(e.status.code)
    && e.fromPfn != "0" && e.toPfn != "0"
    && e.status.detail == Join(Words(e.status.detail), " ")
  }

  lemma {:induction false} JoinHoldsNoNewline(words: seq<string>)
    requires forall i :: 0 <= i < |words| ==> IsWord(words[i])
    ensures '\n' !in Join(words, " ")
    ensures words != [] ==> Join(words, " ") != ""
  {
    if |words| > 1 {
      JoinHoldsNoNewline(words[1..]);
    }
  }

  lemma {:induction false} LineIsRead(e: Entry)
    requires IsReported(e)
    ensures ReadEntry(LineOf(e)) == Some(e) && |LineOf(e)| > 1 && '\n' !in LineOf(e)
  {
    var rest := Words(e.status.detail);
    var words := [e.fromPfn, e.toPfn, e.status.code] + rest;
    WordsAreWords(e.status.detail);
    PrintedEntryIsRead(e, rest);
    JoinHoldsNoNewline(rest);
    JoinHoldsNoNewline(words);
    JoinOfFields(e.fromPfn, e.toPfn, e.status.code, rest);
  }

  lemma {:induction false} JoinOfFields(a: string, b: string, c: string, rest: seq<string>)
    ensures Join([a, b, c] + rest, " ") == a + " " + b + " " + c + if rest == [] then "" else " " + Join(rest, " ")
  {
    var tail := if rest == [] then "" else " " + Join(rest, " ");
    assert ([a, b, c] + rest)[1..] == [b, c] + rest;
    assert ([b, c] + rest)[1..] == [c] + rest;
    assert ([c] + rest)[1..] == rest;
    assert Join([c] + rest, " ") == c + tail;
    assert Join([b, c] + rest, " ") == b + " " + (c + tail);
    assert Join([a, b, c] + rest, " ") == a + " " + (b + " " + (c + tail));
    assert a + " " + (b + " " + (c + tail)) == a + " " + b + " " + c + tail;
  }

  /** The entry at i is the last one for the pair of names. */
  predicate LastFor(entries: seq<Entry>, from: string, to: string, i: int) {
    && 0 <= i < |entries| && entries[i].fromPfn == from && entries[i].toPfn == to
    && forall j :: i < j < |entries| ==> entries[j].fromPfn != from || entries[j].toPfn != to
  }

  /** No entry is for the task's names. */
  predicate Unnamed(entries: seq<Entry>, t: Task) {
    forall i :: 0 <= i < |entries| ==> entries[i].fromPfn != t.fromPfn || entries[i].toPfn != t.toPfn
  }

  predicate AreRead(lines: seq<string>, entries: seq<Entry>) {
    |lines| == |entries| && forall k :: 0 <= k < |lines| ==> ReadEntry(lines[k]) == Some(entries[k])
  }

  lemma FrontIsRead(lines: seq<string>, entries: seq<Entry>)
    requires AreRead(lines, entries) && lines != []
    ensures AreRead(lines[..|lines| - 1], entries[..|entries| - 1])
  {
  }

  lemma {:induction false} LastEntryStep(lines: seq<string>, from: string, to: string, e: Entry)
    requires lines != [] && ReadEntry(lines[|lines| - 1]) == Some(e)
    ensures LastEntry(lines, from, to) ==
            if e.fromPfn == from && e.toPfn == to then Some(e.status) else LastEntry(lines[..|lines| - 1], from, to)
  {
  }

  lemma {:induction false} LastEntryIs(lines: seq<string>, entries: seq<Entry>, from: string, to: string, i: int)
    requires AreRead(lines, entries) && LastFor(entries, from, to, i)
    ensures LastEntry(lines, from, to) == Some(entries[i].status)
    decreases |lines|
  {
    var n := |lines| - 1;
    LastEntryStep(lines, from, to, entries[n]);
    if i < n {
      FrontIsRead(lines, entries);
      var front := entries[..n];
      assert forall j :: 0 <= j < n ==> front[j] == entries[j];
      LastEntryIs(lines[..n], front, from, to, i);
    }
  }

  lemma {:induction false} NoEntry(lines: seq<string>, entries: seq<Entry>, t: Task)
    requires AreRead(lines, entries) && Unnamed(entries, t)
    ensures LastEntry(lines, t.fromPfn, t.toPfn) == None
  {
    if lines != [] {
      var n := |lines| - 1;
      LastEntryStep(lines, t.fromPfn, t.toPfn, entries[n]);
      FrontIsRead(lines, entries);
      NoEntry(lines[..n], entries[..n], t);
    }
  }

  function LinesOf(entries: seq<Entry>): (lines: seq<string>)
    ensures |lines| == |entries| && forall i :: 0 <= i < |entries| ==> lines[i] == LineOf(entries[i])
  {
    seq(|entries|, i requires 0 <= i < |entries| => LineOf(entries[i]))
  }

  /** The whole way of a report: in a job of distinct ids and distinct pairs of names, with one
      line printed per entry, each task is completed once, with the status and the detail of the
      last entry for its names, or with the command's own result if there is none. */
  lemma {:induction false} ReportReachesTasks(tasks: seq<Option<Task>>, entries: seq<Entry>, end: string)
    requires forall n :: 0 <= n < |tasks| && tasks[n].Some? ==> Distinguished(tasks, n)
    requires forall i :: 0 <= i < |entries| ==> IsReported(entries[i])
    requires end == "" || end == "\n"
    ensures var done := Completions(tasks, ReportLines(Join(LinesOf(entries), "\n") + end));
            && |done| == |Present(tasks)|
            && forall k :: 0 <= k < |done| ==>
                 var t := Present(tasks)[k];
                 && done[k].id == t.id
                 && (forall i :: LastFor(entries, t.fromPfn, t.toPfn, i) ==> done[k].status == Some(entries[i].status))
                 && (Unnamed(entries, t) ==> done[k].status == None)
  {
    var lines := LinesOf(entries);
    forall i | 0 <= i < |entries|
      ensures ReadEntry(lines[i]) == Some(entries[i]) && |lines[i]| > 1 && '\n' !in lines[i]
    {
      LineIsRead(entries[i]);
    }
    assert AreRead(lines, entries);
    ReportIsItsLines(lines);
    assert Join(lines, "\n") + "" == Join(lines, "\n");
    assert ReportLines(Join(lines, "\n") + end) == lines;
    JobCompletions(tasks, lines);
    var done := Completions(tasks, lines);
    forall k, i | 0 <= k < |done| && LastFor(entries, Present(tasks)[k].fromPfn, Present(tasks)[k].toPfn, i)
      ensures done[k].status == Some(entries[i].status)
    {
      LastEntryIs(lines, entries, Present(tasks)[k].fromPfn, Present(tasks)[k].toPfn, i);
    }
    forall k | 0 <= k < |done| && Unnamed(entries, Present(tasks)[k]) ensures done[k].status == None {
      NoEntry(lines, entries, Present(tasks)[k]);
    }
  }

  /** A line of three words is an entry, unless one of the names is the digit 0; one of two words
      or with a blank in front is garbage. */
  lemma {:induction false} LineOfWords(a: string, b: string, c: string)
    requires IsWord(a) && IsWord(b) && IsWord(c)
    ensures ReadEntry(a + " " + b + " " + c) ==
            if a == "0" || b == "0" then None else Some(Entry(a, b, Status(c, "")))
    ensures ReadEntry(a + " " + b) == None && ReadEntry(" " + (a + " " + b + " " + c)) == None
  {
    ReadEntryOfWords([a, b, c]);
    ReadEntryOfWords([a, b]);
    JoinOfFields(a, b, c, []);
    assert a + " " + b + " " + c + "" == a + " " + b + " " + c;
    assert [a, b, c] + [] == [a, b, c];
    assert Join([a, b], " ") == a + " " + b;
  }

  /** Words behind the third are the detail. */
  lemma {:induction false} LineWithDetail(a: string, b: string, c: string, d: string, e: string)
    requires IsWord(a) && IsWord(b) && IsWord(c) && IsWord(d) && IsWord(e) && a != "0" && b != "0"
    ensures ReadEntry(a + " " + b + " " + c + " " + (d + " " + e)) == Some(Entry(a, b, Status(c, d + " " + e)))
  {
    ReadEntryOfWords([a, b, c] + [d, e]);
    JoinOfFields(a, b, c, [d, e]);
    assert Join([d, e], " ") == d + " " + e;
    assert ([a, b, c] + [d, e])[3..] == [d, e];
    assert a + " " + b + " " + c + (" " + (d + " " + e)) == a + " " + b + " " + c + " " + (d + " " + e);
  }

  lemma {:induction false} ReadEntryOfWords(words: seq<string>)
    requires |words| >= 2 && forall i :: 0 <= i < |words| ==> IsWord(words[i])
    ensures ReadEntry(Join(words, " ")) ==
            if |words| < 3 || words[0] == "0" || words[1] == "0" then None
            else Some(Entry(words[0], words[1], Status(words[2], Join(words[3..], " "))))
    ensures ReadEntry(" " + Join(words, " ")) == None
  {
    var line := Join(words, " ");
    WordsOfJoin(words);
    assert line[0] == words[0][0];
    assert (" " + line)[1..] == line;
  }

  /** Of two lines for a task's names the last one counts; each task gets its own line. */
  lemma {:induction false} ThreeLineReport(a: string, b: string, c: string, d: string, x: string, y: string, z: string)
    requires IsWord(a) && IsWord(b) && IsWord(c) && IsWord(d) && IsWord(x) && IsWord(y) && IsWord(z)
    requires a != "0" && b != "0" && c != "0" && d != "0" && (a, b) != (c, d)
    ensures Completions([Some(Task("1", a, b)), Some(Task("2", c, d))],
                        ReportLines(a + " " + b + " " + x + "\n" + (c + " " + d + " " + y + "\n" +
                                    (a + " " + b + " " + z)))) ==
            [Completion("1", Some(Status(z, ""))), Completion("2", Some(Status(y, "")))]
  {
    var tasks := [Some(Task("1", a, b)), Some(Task("2", c, d))];
    var entries := [Entry(a, b, Status(x, "")), Entry(c, d, Status(y, "")), Entry(a, b, Status(z, ""))];
    assert "1" != "2" by { assert "1"[0] != "2"[0]; }
    ReportReachesTasks(tasks, entries, "");
    assert [tasks[0]][..0] == [] && tasks[..1] == [tasks[0]];
    assert Present([tasks[0]]) == [tasks[0].value];
    assert Present(tasks) == [tasks[0].value, tasks[1].value];
    assert LastFor(entries, a, b, 2) && LastFor(entries, c, d, 1);
    var lines := LinesOf(entries);
    assert lines[1..][1..] == [lines[2]];
    assert Join(lines[1..], "\n") == lines[1] + "\n" + lines[2];
    assert Join(lines, "\n") + "" == lines[0] + "\n" + (lines[1] + "\n" + lines[2]);
    ShortLine(entries[0]);
    ShortLine(entries[1]);
    ShortLine(entries[2]);
  }

  lemma ShortLine(e: Entry)
    requires e.status.detail == ""
    ensures LineOf(e) == e.fromPfn + " " + e.toPfn + " " + e.status.code
  {
  }
}
