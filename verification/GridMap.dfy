/** The grid map of the legacy authentication: a file of quoted subject names and local users,
    and the lookup that shortens a subject component by component. */
module GridMap {
  import opened Text

  // ---------- strings ----------

  /** "".join("/" + x for x in names). */
  function Path(names: seq<string>): string {
    if names == [] then "" else "/" + names[0] + Path(names[1..])
  }

  predicate NoSlash(s: string) {
    forall i :: 0 <= i < |s| ==> s[i] != '/'
  }

  predicate Names(names: seq<string>) {
    forall i :: 0 <= i < |names| ==> NoSlash(names[i])
  }

  lemma {:induction false} SplitGivesNames(s: string)
    ensures Names(Split(s, '/'))
    ensures s != "" && s[0] == '/' ==> Split(s, '/')[0] == "" && |Split(s, '/')| >= 2
    decreases |s|
  {
    var k := Find(s, '/');
    if k < |s| {
      SplitGivesNames(s[k + 1..]);
    }
  }

  /** A path splits into its names, after the empty text before its first slash. */
  lemma {:induction false} SplitPath(names: seq<string>)
    requires Names(names)
    ensures Split(Path(names), '/') == [""] + names
  {
    if names == [] {
      assert Find("", '/') == 0;
    } else {
      var tail := names[0] + Path(names[1..]);
      assert Path(names) == "/" + tail;
      assert Path(names)[1..] == tail;
      SplitTail(names);
      FindIs(Path(names), '/', 0);
      assert Path(names)[..0] == "";
    }
  }

  lemma {:induction false} SplitTail(names: seq<string>)
    requires names != [] && Names(names)
    ensures Split(names[0] + Path(names[1..]), '/') == names
  {
    var n := |names[0]|;
    var rest := names[1..];
    var s := names[0] + Path(rest);
    if rest == [] {
      assert s == names[0];
      FindIs(s, '/', n);
      assert names == [s];
    } else {
      assert Path(rest) == "/" + (rest[0] + Path(rest[1..]));
      assert s[n] == '/';
      FindIs(s, '/', n);
      assert s[..n] == names[0] && s[n + 1..] == rest[0] + Path(rest[1..]);
      SplitTail(rest);
      assert names == [names[0]] + rest;
    }
  }

  /** A subject that starts with a slash is the path of its components. */
  lemma {:induction false} PathOfSplit(s: string)
    ensures s != "" && s[0] == '/' ==> Path(Split(s, '/')[1..]) == s
  {
    if s != "" && s[0] == '/' {
      FindIs(s, '/', 0);
      assert Split(s, '/')[1..] == Split(s[1..], '/');
      JoinSplit(s[1..]);
      assert "/" + s[1..] == s;
    }
  }

  lemma {:induction false} JoinSplit(s: string)
    ensures Path(Split(s, '/')) == "/" + s
    decreases |s|
  {
    var k := Find(s, '/');
    if k == |s| {
      assert [s][1..] == [];
      assert "/" + s + "" == "/" + s;
    } else {
      JoinSplit(s[k + 1..]);
      var rest := Split(s[k + 1..], '/');
      assert ([s[..k]] + rest)[1..] == rest;
      CutAtSlash(s, k);
    }
  }

  lemma CutAtSlash(s: string, k: nat)
    requires k < |s| && s[k] == '/'
    ensures "/" + s[..k] + ("/" + s[k + 1..]) == "/" + s
  {
    assert s == s[..k] + [s[k]] + s[k + 1..];
  }

  lemma {:induction false} PathOfPrefix(names: seq<string>, k: nat)
    requires k <= |names|
    ensures Path(names[..k]) <= Path(names)
  {
    if k > 0 {
      PathOfPrefix(names[1..], k - 1);
      assert names[..k][1..] == names[1..][..k - 1];
    }
  }

  // ---------- loading ----------

  /** The entry of a line, if it holds two quotes. */
  function ReadEntry(line: string): Option<(string, string)> {
    var parts := Split(Trim(line), '"')[1..];
    if |parts| < 2 then None else Some((Trim(parts[0]), Trim(parts[1])))
  }

  /** A quoted text without quotes, followed by a user, is read as that pair, without the blanks
      around the text. */
  lemma {:induction false} PrintedEntryIsRead(subject: string, user: string)
    requires '"' !in subject && IsWord(user) && '"' !in user
    ensures ReadEntry("\"" + subject + "\" " + user) == Some((Trim(subject), user))
  {
    var line := QUOTE + (subject + (QUOTE + (" " + user)));
    PrintedLine(subject, user);
    QuotedParts(subject, " " + user);
    assert Trim(line) == line by {
      LineEnds(subject, user);
      TrimKeeps(line);
    }
    TrimBlank(user);
    ReadParts(line, subject, " " + user);
  }

  lemma PrintedLine(subject: string, user: string)
    ensures "\"" + subject + "\" " + user == QUOTE + (subject + (QUOTE + (" " + user)))
  {
    var s := "\"" + subject;
    assert s + "\" " + user == s + ("\" " + user);
    assert "\" " + user == QUOTE + (" " + user);
  }

  lemma LineEnds(subject: string, user: string)
    requires user != ""
    ensures var line := QUOTE + (subject + (QUOTE + (" " + user)));
            line != "" && line[0] == '"' && line[|line| - 1] == user[|user| - 1]
  {
  }

  lemma {:induction false} TrimKeeps(s: string)
    requires s != "" && !IsSpace(s[0]) && !IsSpace(s[|s| - 1])
    ensures Trim(s) == s
  {
  }

  lemma {:induction false} TrimBlank(w: string)
    requires IsWord(w)
    ensures Trim(" " + w) == w
  {
    assert (" " + w)[1..] == w;
    TrimKeeps(w);
  }

  lemma ReadParts(line: string, a: string, b: string)
    requires Trim(line) == line && Split(line, '"')[1..] == [a, b]
    ensures ReadEntry(line) == Some((Trim(a), Trim(b)))
  {
  }

  const QUOTE := "\""

  lemma {:induction false} QuotedParts(a: string, b: string)
    requires '"' !in a && '"' !in b
    ensures Split(QUOTE + (a + (QUOTE + b)), '"')[1..] == [a, b]
  {
    FindIs(b, '"', |b|);
    SplitOne(a, b);
    SplitOne("", a + (QUOTE + b));
    EmptyFirst(QUOTE + (a + (QUOTE + b)));
    assert [a] + [b] == [a, b];
    assert ([""] + [a, b])[1..] == [a, b];
  }

  lemma EmptyFirst(s: string)
    ensures "" + s == s
  {
  }

  lemma {:induction false} SplitOne(a: string, b: string)
    requires '"' !in a
    ensures Split(a + (QUOTE + b), '"') == [a] + Split(b, '"')
  {
    var s := a + (QUOTE + b);
    assert s[|a|] == '"';
    FindIs(s, '"', |a|);
    assert s[..|a|] == a && s[|a| + 1..] == b;
  }

  function LoadAll(lines: seq<string>): map<string, string> {
    if lines == [] then map[]
    else
      var front := LoadAll(lines[..|lines| - 1]);
      match ReadEntry(lines[|lines| - 1])
      case None => front
      case Some(e) => front[e.0 := e.1]
  }

  /** The line maps the subject. */
  predicate Maps(line: string, subject: string) {
    ReadEntry(line).Some? && ReadEntry(line).value.0 == subject
  }

  /** Line i is the last one that maps the subject. */
  predicate LastAt(lines: seq<string>, subject: string, i: nat) {
    i < |lines| && Maps(lines[i], subject) && forall j :: i < j < |lines| ==> !Maps(lines[j], subject)
  }

  /** A subject is mapped by a file iff some line maps it, ... */
  lemma {:induction false} MappedByALine(lines: seq<string>, subject: string)
    ensures subject in LoadAll(lines) <==> exists i :: 0 <= i < |lines| && Maps(lines[i], subject)
  {
    if lines != [] {
      var n := |lines| - 1;
      var front := lines[..n];
      MappedByALine(front, subject);
      assert forall i :: 0 <= i < n ==> front[i] == lines[i];
      if subject in LoadAll(front) {
        var i :| 0 <= i < n && Maps(front[i], subject);
        assert Maps(lines[i], subject);
      }
      assert Maps(lines[n], subject) ==> subject in LoadAll(lines);
    }
  }

  /** ... and then to the user of the last such line. */
  lemma {:induction false} LastLineWins(lines: seq<string>, subject: string, i: nat)
    requires LastAt(lines, subject, i)
    ensures subject in LoadAll(lines) && LoadAll(lines)[subject] == ReadEntry(lines[i]).value.1
  {
    var n := |lines| - 1;
    if i < n {
      assert !Maps(lines[n], subject);
      LastLineWins(lines[..n], subject, i);
    }
  }

  // ---------- the lookup ----------

  /** The user of the longest of names[..n], names[..n-1], ..., [] that is mapped. */
  function Longest(m: map<string, string>, names: seq<string>): Option<string> {
    if Path(names) in m then Some(m[Path(names)])
    else if names == [] then None
    else Longest(m, names[..|names| - 1])
  }

  /** What requestLocalId returns; None is the IndexError that ends a failed search. */
  function Lookup(m: map<string, string>, subject: string): Option<string> {
    if subject in m then Some(m[subject])
    else
      var parts := Split(subject, '/');
      if |parts| == 1 then None else Longest(m, parts[1..|parts| - 1])
  }

  class GridMapChecker {
    var gridMap: map<string, string>

    constructor (lines: seq<string>)
      ensures gridMap == LoadAll(lines)
    {
      gridMap := map[];
      new;
      Load(lines);
    }

    method Load(lines: seq<string>)
      modifies this
      ensures gridMap == LoadAll(lines)
    {
      gridMap := map[];
      for i := 0 to |lines|
        invariant gridMap == LoadAll(lines[..i])
      {
        assert lines[..i + 1][..i] == lines[..i];
        var l := Split(Trim(lines[i]), '"')[1..];
        if |l| >= 2 {
          gridMap := gridMap[Trim(l[0]) := Trim(l[1])];
        }
      }
      assert lines[..|lines|] == lines;
    }

    /** requestLocalId: the exceptions its branches build are never raised, so the loop goes on
        until the list of components runs out. */
    method RequestLocalId(subject0: string) returns (user: Option<string>)
      ensures user == Lookup(gridMap, subject0)
    {
      var subject := subject0;
      if subject !in gridMap {
        ghost var first := true;
        while true
          invariant subject !in gridMap
          invariant first ==> subject == subject0
          invariant !first ==>
                      && |Split(subject0, '/')| >= 2
                      && Split(subject, '/')[0] == "" && Path(Split(subject, '/')[1..]) == subject
                      && Longest(gridMap, Split(subject, '/')[1..]) == Lookup(gridMap, subject0)
          decreases |Split(subject, '/')|, first
        {
          var subjectNameList := Split(subject, '/');
          SplitGivesNames(subject);
          subjectNameList := subjectNameList[..|subjectNameList| - 1];
          if subjectNameList == [] {
            // pop(0) raises the IndexError
            return None;
          }
          subjectNameList := subjectNameList[1..];
          SplitPath(subjectNameList);
          assert Split(subject, '/')[1..|Split(subject, '/')| - 1] == subjectNameList;
          assert !first ==> Split(subject, '/')[1..][..|Split(subject, '/')| - 2] == subjectNameList;
          subject := Path(subjectNameList);
          assert ([""] + subjectNameList)[1..] == subjectNameList;
          first := false;
          if subject in gridMap {
            break;
          }
        }
      }
      return Some(gridMap[subject]);
    }
  }

  /** names[..k] is mapped and no longer prefix of the names is. */
  predicate IsLongest(m: map<string, string>, names: seq<string>, k: nat)
    requires k <= |names|
  {
    Path(names[..k]) in m && forall j :: k < j <= |names| ==> Path(names[..j]) !in m
  }

  lemma {:induction false} LongestIsLongest(m: map<string, string>, names: seq<string>)
    ensures Longest(m, names) == None <==> forall k :: 0 <= k <= |names| ==> Path(names[..k]) !in m
    ensures forall k :: 0 <= k <= |names| && IsLongest(m, names, k) ==> Longest(m, names) == Some(m[Path(names[..k])])
  {
    assert names[..|names|] == names;
    if Path(names) !in m && names != [] {
      var front := names[..|names| - 1];
      LongestIsLongest(m, front);
      assert forall k :: 0 <= k <= |front| ==> front[..k] == names[..k];
      forall k | 0 <= k <= |names| && IsLongest(m, names, k) ensures Longest(m, names) == Some(m[Path(names[..k])]) {
        assert k < |names|;
        assert IsLongest(m, front, k);
      }
    }
  }

  /** For a subject that starts with a slash: the user of the longest prefix of its components
      that is mapped, the subject itself included; failure exactly if none is. All candidates
      are prefixes of the subject. */
  lemma {:induction false} LongestPrefixWins(m: map<string, string>, subject: string)
    requires subject != "" && subject[0] == '/'
    ensures var names := Split(subject, '/')[1..];
            && Path(names) == subject
            && (forall k :: 0 <= k <= |names| ==> Path(names[..k]) <= subject)
            && (Lookup(m, subject) == None <==> forall k :: 0 <= k <= |names| ==> Path(names[..k]) !in m)
            && forall k :: 0 <= k <= |names| && IsLongest(m, names, k) ==>
                 Lookup(m, subject) == Some(m[Path(names[..k])])
  {
    var parts := Split(subject, '/');
    var names := parts[1..];
    SplitGivesNames(subject);
    PathOfSplit(subject);
    LongestIsLongest(m, names);
    forall k | 0 <= k <= |names| ensures Path(names[..k]) <= subject {
      PathOfPrefix(names, k);
    }
    assert parts[1..|parts| - 1] == names[..|names| - 1];
    assert Lookup(m, subject) == Longest(m, names);
  }

  /** The user found is that of a mapped prefix of the subject. */
  predicate FoundByPrefix(m: map<string, string>, subject: string) {
    Lookup(m, subject).Some? ==>
      exists n :: 0 <= n <= |subject| && subject[..n] in m && Lookup(m, subject) == Some(m[subject[..n]])
  }

  /** Whatever the map, a user is found by a prefix of the subject only: exactly if the subject
      is empty or starts with a slash, or has at most one slash. */
  lemma {:induction false} FoundByPrefixWhen(subject: string)
    ensures (forall m :: FoundByPrefix(m, subject)) <==>
            subject == "" || subject[0] == '/' || |Split(subject, '/')| <= 2
  {
    var parts := Split(subject, '/');
    if subject != "" && subject[0] != '/' && |parts| > 2 {
      LosesAComponent(subject, "user");
    } else {
      forall m ensures FoundByPrefix(m, subject) {
        SearchFindsPrefix(m, subject);
      }
    }
  }

  lemma {:induction false} SearchFindsPrefix(m: map<string, string>, subject: string)
    requires subject == "" || subject[0] == '/' || |Split(subject, '/')| <= 2
    ensures FoundByPrefix(m, subject)
  {
    if subject in m {
      assert subject[..|subject|] == subject;
    } else if subject != "" && subject[0] == '/' {
      LongestPrefixWins(m, subject);
      if Lookup(m, subject).Some? {
        var names := Split(subject, '/')[1..];
        var k := LongestAt(m, names);
        assert subject[..|Path(names[..k])|] == Path(names[..k]);
      }
    } else {
      FindIs("", '/', 0);
      assert |Split(subject, '/')| == 2 ==> Split(subject, '/')[1..1] == [];
      assert subject[..0] == "" == Path([]);
    }
  }

  /** Where the longest mapped prefix ends, if there is one. */
  lemma {:induction false} LongestAt(m: map<string, string>, names: seq<string>) returns (k: nat)
    ensures k <= |names|
    ensures (exists j :: 0 <= j <= |names| && Path(names[..j]) in m) ==> IsLongest(m, names, k)
  {
    k := |names|;
    while k > 0 && Path(names[..k]) !in m
      invariant k <= |names| && forall j :: k < j <= |names| ==> Path(names[..j]) !in m
    {
      k := k - 1;
    }
  }

  /** Without a leading slash the first component is lost: the entry of the others, joined, is
      found, and is no prefix of the subject. */
  lemma {:induction false} LosesAComponent(subject: string, user: string)
    requires subject != "" && subject[0] != '/' && |Split(subject, '/')| > 2
    ensures var parts := Split(subject, '/');
            var m := map[Path(parts[1..|parts| - 1]) := user];
            Lookup(m, subject) == Some(user) && !FoundByPrefix(m, subject)
  {
    var parts := Split(subject, '/');
    var names := parts[1..|parts| - 1];
    assert Path(names)[0] == '/';
  }

  /** The exceptions meant for a failed lookup are built but not raised: it fails, by an
      IndexError, exactly if neither the subject nor any of its candidates is mapped. */
  lemma {:induction false} LookupFailsWhen(m: map<string, string>, subject: string)
    ensures var parts := Split(subject, '/');
            Lookup(m, subject) == None <==> subject !in m && forall k :: 1 <= k < |parts| ==> Path(parts[1..k]) !in m
    ensures Lookup(map[], subject) == None
  {
    var parts := Split(subject, '/');
    if |parts| > 1 {
      var names := parts[1..|parts| - 1];
      LongestIsLongest(m, names);
      LongestIsLongest(map[], names);
      assert forall k :: 1 <= k < |parts| ==> names[..k - 1] == parts[1..k];
      assert forall k :: 0 <= k <= |names| ==> names[..k] == parts[1..k + 1];
    }
  }

  /** For instance, "a/b/c" finds "/b". */
  lemma {:induction false} OtherSubjectsLoseAComponent()
    ensures Lookup(map["/b" := "user"], "a/b/c") == Some("user")
  {
    var s := "a/b/c";
    FindIs(s, '/', 1);
    assert s[2..] == "b/c";
    FindIs("b/c", '/', 1);
    assert "b/c"[2..] == "c" && "b/c"[..1] == "b" && s[..1] == "a";
    FindIs("c", '/', 1);
    assert Split("b/c", '/') == ["b"] + ["c"];
    assert Split(s, '/') == ["a", "b", "c"];
    assert ["a", "b", "c"][1..2] == ["b"];
    assert ["b"][1..] == [];
    assert Path(["b"]) == "/" + "b" + "" == "/b";
  }

  /** A line without two quotes maps nothing. */
  lemma {:induction false} UnquotedLineIsSkipped(a: string, b: string)
    requires '"' !in a && '"' !in b
    ensures Trim(a) == a ==> ReadEntry(a) == None
    ensures Trim(a + "\"" + b) == a + "\"" + b ==> ReadEntry(a + "\"" + b) == None
  {
    SplitFirst(a, b, '"');
    SplitFirst(b, "", '"');
  }
}
