/** The string operations the clients and the PhEDEx backend rely on: lines, words,
    trimming, joining. */
module Text {

  datatype Option<+T> = None | Some(value: T)

  datatype Result<+T, +E> = Ok(value: T) | Err(error: E)

  predicate IsSpace(c: char) {
    c == ' ' || ('\t' <= c <= '\r')
  }

  predicate IsDigit(c: char) {
    '0' <= c <= '9'
  }

  predicate NoSpaces(s: string) {
    forall i :: 0 <= i < |s| ==> !IsSpace(s[i])
  }

  predicate AllDigits(s: string) {
    forall i :: 0 <= i < |s| ==> IsDigit(s[i])
  }

  /** A word as a whitespace split yields it. */
  predicate IsWord(s: string) {
    s != "" && NoSpaces(s)
  }

  /** The index of the first c in s, or |s|. */
  function Find(s: string, c: char): (k: nat)
    ensures k <= |s|
    ensures forall i :: 0 <= i < k ==> s[i] != c
    ensures k < |s| ==> s[k] == c
  {
    if s == "" || s[0] == c then 0 else 1 + Find(s[1..], c)
  }

  lemma {:induction false} FindIs(s: string, c: char, k: nat)
    requires k <= |s| && (k < |s| ==> s[k] == c)
    requires forall i :: 0 <= i < k ==> s[i] != c
    ensures Find(s, c) == k
  {
    if k > 0 {
      FindIs(s[1..], c, k - 1);
    }
  }

  /** s.split(c). */
  function Split(s: string, c: char): (parts: seq<string>)
    ensures parts != []
  {
    var k := Find(s, c);
    if k == |s| then [s] else [s[..k]] + Split(s[k + 1..], c)
  }

  /** sep.join(parts). */
  function Join(parts: seq<string>, sep: string): string {
    if parts == [] then ""
    else if |parts| == 1 then parts[0]
    else parts[0] + sep + Join(parts[1..], sep)
  }

  /** File.readlines: each line keeps its newline. */
  function Lines(s: string): seq<string> {
    var k := Find(s, '\n');
    if s == "" then []
    else if k == |s| then [s]
    else [s[..k + 1]] + Lines(s[k + 1..])
  }

  /** The end of the first word of s: the first whitespace character, or |s|. */
  function WordEnd(s: string): (k: nat)
    ensures k <= |s| && NoSpaces(s[..k])
    ensures k < |s| ==> IsSpace(s[k])
    ensures s != "" && !IsSpace(s[0]) ==> 0 < k
  {
    if s == "" || IsSpace(s[0]) then 0
    else
      var k := 1 + WordEnd(s[1..]);
      assert s[..k] == [s[0]] + s[1..][..k - 1];
      k
  }

  /** str.split() with no argument. */
  function Words(s: string): seq<string> {
    if s == "" then []
    else if IsSpace(s[0]) then Words(s[1..])
    else [s[..WordEnd(s)]] + Words(s[WordEnd(s)..])
  }

  function TrimLeft(s: string): (r: string) {
    if s != "" && IsSpace(s[0]) then TrimLeft(s[1..]) else s
  }

  function TrimRight(s: string): (r: string) {
    if s != "" && IsSpace(s[|s| - 1]) then TrimRight(s[..|s| - 1]) else s
  }

  /** str.strip(). */
  function Trim(s: string): string {
    TrimRight(TrimLeft(s))
  }

  lemma {:induction false} WordsAreWords(s: string)
    ensures forall i :: 0 <= i < |Words(s)| ==> IsWord(Words(s)[i])
    decreases |s|
  {
    if s == "" {
    } else if IsSpace(s[0]) {
      WordsAreWords(s[1..]);
    } else {
      WordsAreWords(s[WordEnd(s)..]);
    }
  }

  lemma {:induction false} WordEndOfWord(w: string, rest: string)
    requires IsWord(w)
    requires rest == "" || IsSpace(rest[0])
    ensures WordEnd(w + rest) == |w|
  {
    assert (w + rest)[0] == w[0];
    if |w| == 1 {
      assert (w + rest)[1..] == rest;
    } else {
      assert (w + rest)[1..] == w[1..] + rest;
      WordEndOfWord(w[1..], rest);
    }
  }

  /** A leading word is split off whole. */
  lemma {:induction false} WordsOfWord(w: string, rest: string)
    requires IsWord(w)
    requires rest == "" || IsSpace(rest[0])
    ensures Words(w + rest) == [w] + Words(rest)
  {
    WordEndOfWord(w, rest);
    var s := w + rest;
    assert s[0] == w[0];
    assert s[..|w|] == w && s[|w|..] == rest;
  }

  lemma {:induction false} TrimRightKeeps(s: string)
    requires s != "" && !IsSpace(s[|s| - 1])
    ensures TrimRight(s) == s && TrimRight(s + "\n") == s
  {
    var t := s + "\n";
    assert t[..|t| - 1] == s;
  }

  /** "a b" with or without its newline splits into a and b. */
  lemma {:induction false} WordsOfPair(a: string, b: string, nl: string)
    requires IsWord(a) && IsWord(b)
    requires nl == "" || nl == "\n"
    ensures Words(Trim(a + " " + b + nl)) == [a, b]
  {
    TrimPair(a, b, nl);
    assert a + " " + b == a + (" " + b);
    WordsOfWord(a, " " + b);
    assert (" " + b)[1..] == b && b + "" == b;
    WordsOfWord(b, "");
  }

  lemma {:induction false} TrimPair(a: string, b: string, nl: string)
    requires IsWord(a) && IsWord(b)
    requires nl == "" || nl == "\n"
    ensures Trim(a + " " + b + nl) == a + " " + b
  {
    var s := a + " " + b;
    assert (s + nl)[0] == a[0];
    assert s[|s| - 1] == b[|b| - 1];
    TrimRightKeeps(s);
    assert s + "" == s;
  }

  /** Words joined by single spaces are split into the same words. */
  lemma {:induction false} WordsOfJoin(words: seq<string>)
    requires forall i :: 0 <= i < |words| ==> IsWord(words[i])
    ensures Words(Join(words, " ")) == words
  {
    if |words| == 1 {
      WordsOfWord(words[0], "");
      assert words[0] + "" == words[0];
      assert [words[0]] + [] == words;
    } else if |words| > 1 {
      WordsOfJoin(words[1..]);
      WordsOfMore(words[0], Join(words[1..], " "));
      assert words == [words[0]] + words[1..];
    }
  }

  lemma {:induction false} WordsOfMore(w: string, rest: string)
    requires IsWord(w)
    ensures Words(w + " " + rest) == [w] + Words(rest)
  {
    var tail := " " + rest;
    WordsOfWord(w, tail);
    assert tail[1..] == rest;
    assert w + " " + rest == w + tail;
  }

  lemma {:induction false} SplitFirst(a: string, b: string, c: char)
    requires c !in a
    ensures Split(a, c) == [a]
    ensures Split(a + [c] + b, c) == [a] + Split(b, c)
  {
    var s := a + [c] + b;
    FindIs(a, c, |a|);
    FindIs(s, c, |a|);
    assert s[..|a|] == a && s[|a| + 1..] == b;
  }

  /** What is joined by a character none of the parts holds is split into the parts. */
  lemma {:induction false} SplitJoin(parts: seq<string>, c: char)
    requires parts != [] && forall i :: 0 <= i < |parts| ==> c !in parts[i]
    ensures Split(Join(parts, [c]), c) == parts
  {
    if |parts| == 1 {
      SplitFirst(parts[0], "", c);
    } else {
      SplitJoin(parts[1..], c);
      SplitFirst(parts[0], Join(parts[1..], [c]), c);
      assert parts == [parts[0]] + parts[1..];
    }
  }

  /** One more part, behind the others. */
  lemma {:induction false} JoinOneMore(parts: seq<string>, sep: string, last: string)
    requires parts != []
    ensures Join(parts + [last], sep) == Join(parts, sep) + sep + last
  {
    if |parts| == 1 {
      assert (parts + [last])[1..] == [last];
    } else {
      JoinOneMore(parts[1..], sep, last);
      assert (parts + [last])[1..] == parts[1..] + [last];
      var a, b := parts[0], Join(parts[1..], sep);
      assert a + sep + (b + sep + last) == (a + sep + b) + sep + last;
    }
  }

  /** The blanks of Python's split and strip, and the digits of [0-9]. */
  lemma {:induction false} BlanksAndDigits(c: char)
    ensures IsSpace(c) <==> c as int in {0x20, 0x09, 0x0A, 0x0B, 0x0C, 0x0D}
    ensures IsDigit(c) <==> c in "0123456789"
  {
    var digits := "0123456789";
    if IsDigit(c) {
      assert digits[c as int - '0' as int] == c;
    }
  }

  /** Trim takes off exactly the blanks on both sides. */
  lemma {:induction false} TrimIs(a: string, s: string, b: string)
    requires (forall i :: 0 <= i < |a| ==> IsSpace(a[i])) && (forall i :: 0 <= i < |b| ==> IsSpace(b[i]))
    requires s == "" || (!IsSpace(s[0]) && !IsSpace(s[|s| - 1]))
    ensures Trim(a + s + b) == s
  {
    TrimLeftIs(a, s + b);
    assert a + s + b == a + (s + b);
    if s == "" {
      assert s + b == b;
      TrimBlanks(b);
    } else {
      TrimLeftIs("", s + b);
      assert "" + (s + b) == s + b;
      TrimRightIs(s, b);
    }
  }

  lemma {:induction false} TrimLeftIs(a: string, s: string)
    requires forall i :: 0 <= i < |a| ==> IsSpace(a[i])
    ensures TrimLeft(a + s) == TrimLeft(s)
  {
    if a == "" {
      assert a + s == s;
    } else {
      assert (a + s)[1..] == a[1..] + s;
      TrimLeftIs(a[1..], s);
    }
  }

  lemma {:induction false} TrimRightIs(s: string, b: string)
    requires s != "" && !IsSpace(s[|s| - 1]) && forall i :: 0 <= i < |b| ==> IsSpace(b[i])
    ensures TrimRight(s + b) == s
  {
    if b == "" {
      assert s + b == s;
    } else {
      assert (s + b)[..|s + b| - 1] == s + b[..|b| - 1];
      TrimRightIs(s, b[..|b| - 1]);
    }
  }

  lemma {:induction false} TrimBlanks(b: string)
    requires forall i :: 0 <= i < |b| ==> IsSpace(b[i])
    ensures TrimLeft(b) == ""
  {
    if b != "" {
      TrimBlanks(b[1..]);
    }
  }

  /** A line: not empty, with no newline before its last character. */
  predicate IsLine(line: string) {
    line != "" && forall k :: 0 <= k < |line| - 1 ==> line[k] != '\n'
  }

  predicate AreLines(lines: seq<string>) {
    && (forall i :: 0 <= i < |lines| ==> IsLine(lines[i]))
    && (forall i :: 0 <= i < |lines| - 1 ==> lines[i][|lines[i]| - 1] == '\n')
  }

  /** A text is the concatenation of its lines, each of which but the last ends with a newline. */
  lemma {:induction false} LinesAre(s: string)
    ensures AreLines(Lines(s)) && Join(Lines(s), "") == s
    decreases |s|
  {
    var k := Find(s, '\n');
    if s == "" {
      assert Lines(s) == [];
    } else if k == |s| {
      assert Lines(s) == [s];
    } else {
      var first, rest := s[..k + 1], s[k + 1..];
      LinesAre(rest);
      LineInFront(first, Lines(rest), rest);
      assert s == first + rest && Lines(s) == [first] + Lines(rest);
    }
  }

  lemma {:induction false} LineInFront(first: string, rest: seq<string>, text: string)
    requires AreLines(rest) && Join(rest, "") == text && IsLine(first) && first[|first| - 1] == '\n'
    ensures AreLines([first] + rest) && Join([first] + rest, "") == first + text
  {
    var lines := [first] + rest;
    assert lines[1..] == rest;
    assert forall i :: 0 < i < |lines| ==> lines[i] == rest[i - 1];
    assert first + "" + text == first + text && first + "" == first;
  }
}
