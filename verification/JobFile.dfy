/** The copy job file: PhEDEx's FDT backend (Perl) writes it, fdtcp (Python) reads it. */
module JobFile {
  import opened Text

  datatype Task = Task(fromPfn: string, toPfn: string)

  /** What writeSpec puts in the file: one "from to" per task, joined by newlines. */
  function WriteSpec(tasks: seq<Task>): string {
    Join(seq(|tasks|, i requires 0 <= i < |tasks| => SpecLine(tasks[i])), "\n")
  }

  function SpecLine(t: Task): string {
    t.fromPfn + " " + t.toPfn
  }

  /** fdtcp's reading of one line: strip, split, fields 0 and 1; None is the IndexError. */
  function ReadLine(line: string): Option<Task> {
    var urls := Words(Trim(line));
    if |urls| < 2 then None else Some(Task(urls[0], urls[1]))
  }

  /** All lines of a file, in order; Err is the index of the first line that cannot be split. */
  function ReadLines(lines: seq<string>): Result<seq<Task>, nat> {
    if lines == [] then Ok([])
    else
      match ReadLine(lines[0])
      case None => Err(0)
      case Some(t) =>
        match ReadLines(lines[1..])
        case Err(i) => Err(i + 1)
        case Ok(rest) => Ok([t] + rest)
  }

  function ReadSpec(content: string): Result<seq<Task>, nat> {
    ReadLines(Lines(content))
  }

  predicate IsPrintable(t: Task) {
    IsWord(t.fromPfn) && IsWord(t.toPfn)
  }

  /** The file of several tasks starts with the line of the first. */
  lemma {:induction false} SpecOfMore(tasks: seq<Task>)
    requires |tasks| > 1
    ensures WriteSpec(tasks) == SpecLine(tasks[0]) + "\n" + WriteSpec(tasks[1..])
  {
    var lines := seq(|tasks|, i requires 0 <= i < |tasks| => SpecLine(tasks[i]));
    assert lines[1..] == seq(|tasks| - 1, i requires 0 <= i < |tasks| - 1 => SpecLine(tasks[1..][i]));
  }

  lemma {:induction false} LinesOfSpec(line: string, rest: string)
    requires '\n' !in line && rest != ""
    ensures Lines(line + "\n" + rest) == [line + "\n"] + Lines(rest)
  {
    var s := line + "\n" + rest;
    assert s[|line|] == '\n';
    assert forall i :: 0 <= i < |line| ==> s[i] == line[i];
    assert Find(s, '\n') == |line|;
    assert s[..|line| + 1] == line + "\n";
    assert s[|line| + 1..] == rest;
  }

  lemma {:induction false} PrintedLine(t: Task)
    requires IsPrintable(t)
    ensures ReadLine(SpecLine(t)) == Some(t) && ReadLine(SpecLine(t) + "\n") == Some(t)
    ensures '\n' !in SpecLine(t)
  {
    WordsOfPair(t.fromPfn, t.toPfn, "");
    WordsOfPair(t.fromPfn, t.toPfn, "\n");
    assert SpecLine(t) + "" == SpecLine(t);
  }

  lemma {:induction false} ReadsBackOne(t: Task)
    requires IsPrintable(t)
    ensures ReadSpec(WriteSpec([t])) == Ok([t]) && WriteSpec([t]) != ""
  {
    var s := SpecLine(t);
    PrintedLine(t);
    assert Find(s, '\n') == |s|;
    assert Lines(s) == [s];
    assert ReadLines([s][1..]) == Ok([]);
    assert [t] + [] == [t];
  }

  lemma {:induction false} ReadsBackMore(tasks: seq<Task>)
    requires |tasks| > 1 && IsPrintable(tasks[0]) && WriteSpec(tasks[1..]) != ""
    ensures ReadSpec(WriteSpec(tasks[1..])).Ok? ==>
              ReadSpec(WriteSpec(tasks)) == Ok([tasks[0]] + ReadSpec(WriteSpec(tasks[1..])).value)
    ensures WriteSpec(tasks) != ""
  {
    var t := tasks[0];
    PrintedLine(t);
    SpecOfMore(tasks);
    LinesOfSpec(SpecLine(t), WriteSpec(tasks[1..]));
    assert Lines(WriteSpec(tasks))[1..] == Lines(WriteSpec(tasks[1..]));
  }

  lemma {:induction false} ReadsBackPrintable(tasks: seq<Task>)
    requires forall i :: 0 <= i < |tasks| ==> IsPrintable(tasks[i])
    ensures ReadSpec(WriteSpec(tasks)) == Ok(tasks)
    ensures tasks != [] ==> WriteSpec(tasks) != ""
  {
    if tasks == [] {
    } else {
      var t := tasks[0];
      if |tasks| == 1 {
        ReadsBackOne(t);
        assert tasks == [t];
      } else {
        ReadsBackPrintable(tasks[1..]);
        ReadsBackMore(tasks);
        assert tasks == [t] + tasks[1..];
      }
    }
  }

  lemma {:induction false} ReadIsPrintable(lines: seq<string>)
    requires ReadLines(lines).Ok?
    ensures |ReadLines(lines).value| == |lines|
    ensures forall i :: 0 <= i < |lines| ==> IsPrintable(ReadLines(lines).value[i])
  {
    if lines != [] {
      WordsAreWords(Trim(lines[0]));
      ReadIsPrintable(lines[1..]);
    }
  }

  /** The round trip across the two languages, for every list of tasks: it is faithful
      exactly when every name is non-empty and free of whitespace. */
  lemma {:induction false} RoundTrip(tasks: seq<Task>)
    ensures ReadSpec(WriteSpec(tasks)) == Ok(tasks) <==> forall i :: 0 <= i < |tasks| ==> IsPrintable(tasks[i])
  {
    if ReadSpec(WriteSpec(tasks)) == Ok(tasks) {
      ReadIsPrintable(Lines(WriteSpec(tasks)));
    }
    if forall i :: 0 <= i < |tasks| ==> IsPrintable(tasks[i]) {
      ReadsBackPrintable(tasks);
    }
  }

  /** What is written for one task and for two, and what is read of a line with more words. */
  lemma {:induction false} WrittenText(a: string, b: string, c: string, d: string)
    ensures WriteSpec([]) == "" && WriteSpec([Task(a, b)]) == a + " " + b
    ensures WriteSpec([Task(a, b), Task(c, d)]) == a + " " + b + "\n" + (c + " " + d)
    ensures IsWord(a) && IsWord(b) && IsWord(c) ==>
              ReadLine(a + " " + b + " " + c) == Some(Task(a, b)) && ReadLine(a) == None && ReadLine("") == None
  {
    var tasks := [Task(a, b), Task(c, d)];
    SpecOfMore(tasks);
    assert tasks[1..] == [Task(c, d)];
    if IsWord(a) && IsWord(b) && IsWord(c) {
      LongerLine(a, b, c);
    }
  }

  lemma {:induction false} LongerLine(a: string, b: string, c: string)
    requires IsWord(a) && IsWord(b) && IsWord(c)
    ensures ReadLine(a + " " + b + " " + c) == Some(Task(a, b)) && ReadLine(a) == None
  {
    var line := a + " " + b + " " + c;
    WordsOfJoin([a, b, c]);
    assert [a, b, c][1..] == [b, c] && [b, c][1..] == [c];
    assert Join([b, c], " ") == b + " " + c;
    assert Join([a, b, c], " ") == a + " " + (b + " " + c);
    assert a + " " + (b + " " + c) == line;
    TrimKept(line, a[0], c[|c| - 1]);
    WordsOfJoin([a]);
    assert Join([a], " ") == a;
    TrimKept(a, a[0], a[|a| - 1]);
  }

  lemma {:induction false} TrimKept(s: string, first: char, last: char)
    requires s != "" && s[0] == first && s[|s| - 1] == last && !IsSpace(first) && !IsSpace(last)
    ensures Trim(s) == s
  {
    TrimIs("", s, "");
    assert "" + s + "" == s;
  }
}
