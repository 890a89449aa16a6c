/** The transfer URL pattern of fdtcp,
      fdt://(?P<host>.*):(?P<port>[0-9]+)/?(?P<file>/.*)
    as the regular expression engine runs it: every repetition is greedy and gives
    characters back one at a time. The reference it is compared with is the plain
    reading of the pattern: all ways to cut a URL into the pattern's pieces. */
module UrlPattern {
  import opened Text

  const SCHEME := "fdt://"

  datatype Url = Url(host: string, port: string, file: string)

  // ---------- the engine ----------

  /** Where `.*` started at `from` must stop: the first newline, or the end. */
  function LineEnd(s: string, from: nat): (e: nat)
    requires from <= |s|
    ensures from <= e <= |s|
    ensures forall i :: from <= i < e ==> s[i] != '\n'
    ensures e < |s| ==> s[e] == '\n'
    decreases |s| - from
  {
    if from == |s| || s[from] == '\n' then from else LineEnd(s, from + 1)
  }

  function DigitsEnd(s: string, from: nat): (e: nat)
    requires from <= |s|
    ensures from <= e <= |s|
    ensures forall i :: from <= i < e ==> IsDigit(s[i])
    ensures e < |s| ==> !IsDigit(s[e])
    decreases |s| - from
  {
    if from == |s| || !IsDigit(s[from]) then from else DigitsEnd(s, from + 1)
  }

  /** `/?(?P<file>/.*)` at e: take the optional slash, give it back if no second one follows. */
  function MatchFile(s: string, end: nat, e: nat): Option<string>
    requires end <= |s|
  {
    if e + 1 < end && s[e] == '/' && s[e + 1] == '/' then Some(s[e + 1..end])
    else if e < end && s[e] == '/' then Some(s[e..end])
    else None
  }

  /** `(?P<port>[0-9]+)` from lo, at most up to e, longest first. */
  function MatchPort(s: string, end: nat, lo: nat, e: nat): Option<(string, string)>
    requires lo <= e <= |s| && end <= |s|
    decreases e
  {
    if e == lo then None
    else
      match MatchFile(s, end, e)
      case Some(file) => Some((s[lo..e], file))
      case None => MatchPort(s, end, lo, e - 1)
  }

  /** `(?P<host>.*):` with the colon at h or before, longest first. */
  function MatchHost(s: string, end: nat, h: nat): Option<Url>
    requires |SCHEME| <= h <= end <= |s|
    decreases h
  {
    var here := if h < end && s[h] == ':' then MatchPort(s, end, h + 1, DigitsEnd(s, h + 1)) else None;
    if here.Some? then Some(Url(s[|SCHEME|..h], here.value.0, here.value.1))
    else if h == |SCHEME| then None
    else MatchHost(s, end, h - 1)
  }

  /** pattern.match(s). */
  function Match(s: string): Option<Url> {
    if SCHEME <= s then
      var end := LineEnd(s, |SCHEME|);
      MatchHost(s, end, end)
    else None
  }

  // ---------- the reference ----------

  predicate NoNewline(s: string) {
    forall i :: 0 <= i < |s| ==> s[i] != '\n'
  }

  /** The pieces of one way to read the pattern; rest is what the match leaves unread. */
  datatype Reading = Reading(url: Url, extraSlash: bool, rest: string)

  function Slash(extra: bool): string {
    if extra then "/" else ""
  }

  function Print(r: Reading): string {
    SCHEME + (r.url.host + (":" + (r.url.port + (Slash(r.extraSlash) + (r.url.file + r.rest)))))
  }

  predicate Fits(u: Url) {
    && NoNewline(u.host)
    && u.port != "" && AllDigits(u.port)
    && u.file != "" && u.file[0] == '/' && NoNewline(u.file)
  }

  predicate Reads(s: string, r: Reading) {
    Fits(r.url) && s == Print(r)
  }

  /** The engine's order of preference: longer host, then longer port, then the extra
      slash taken, then longer file. */
  predicate Before(a: Reading, b: Reading) {
    || |b.url.host| < |a.url.host|
    || (|b.url.host| == |a.url.host|
        && (|| |b.url.port| < |a.url.port|
            || (|b.url.port| == |a.url.port|
                && (|| (a.extraSlash && !b.extraSlash)
                    || (a.extraSlash == b.extraSlash && |b.url.file| <= |a.url.file|)))))
  }

  /** A colon, a run of digits and then x, somewhere in s. */
  ghost predicate HasColonDigits(s: string, x: char) {
    exists i, j :: ColonDigitsAt(s, x, i, j)
  }

  predicate ColonDigitsAt(s: string, x: char, i: int, j: int) {
    0 <= i && i + 1 < j < |s| && s[i] == ':' && s[j] == x && forall k :: i < k < j ==> IsDigit(s[k])
  }

  // ---------- what the engine finds, in positions ----------

  /** The pattern can be read with its colon at h. */
  predicate ColonFits(s: string, end: nat, h: nat)
    requires end <= |s|
  {
    h < end && s[h] == ':' && h + 1 < DigitsEnd(s, h + 1) < end && s[DigitsEnd(s, h + 1)] == '/'
  }

  lemma {:induction false} MatchPortShort(s: string, end: nat, lo: nat, e: nat)
    requires lo <= e <= |s| && end <= |s|
    requires forall i :: lo <= i < e ==> IsDigit(s[i])
    requires lo < e < end ==> s[e] != '/'
    ensures MatchPort(s, end, lo, e) == None
    decreases e
  {
    if lo < e {
      MatchPortShort(s, end, lo, e - 1);
    }
  }

  lemma {:induction false} MatchPortIs(s: string, end: nat, h: nat)
    requires h < end <= |s| && s[h] == ':'
    ensures MatchPort(s, end, h + 1, DigitsEnd(s, h + 1)).Some? <==> ColonFits(s, end, h)
    ensures ColonFits(s, end, h) ==>
              MatchPort(s, end, h + 1, DigitsEnd(s, h + 1)) ==
              Some((s[h + 1..DigitsEnd(s, h + 1)], MatchFile(s, end, DigitsEnd(s, h + 1)).value))
  {
    if !ColonFits(s, end, h) {
      MatchPortShort(s, end, h + 1, DigitsEnd(s, h + 1));
    }
  }

  /** The parts of the URL if the pattern is read with its colon at c. */
  function UrlAt(s: string, end: nat, c: nat): Url
    requires |SCHEME| <= c < end <= |s| && ColonFits(s, end, c)
  {
    Url(s[|SCHEME|..c], s[c + 1..DigitsEnd(s, c + 1)], MatchFile(s, end, DigitsEnd(s, c + 1)).value)
  }

  lemma {:induction false} MatchHostAt(s: string, end: nat, h: nat)
    requires |SCHEME| <= h <= end <= |s|
    ensures MatchHost(s, end, h) ==
            if ColonFits(s, end, h) then Some(UrlAt(s, end, h))
            else if h == |SCHEME| then None
            else MatchHost(s, end, h - 1)
  {
    if h < end && s[h] == ':' {
      MatchPortIs(s, end, h);
    }
  }

  /** The engine stops at the last colon the pattern can be read with. */
  lemma {:induction false} MatchHostIs(s: string, end: nat, h: nat) returns (c: nat)
    requires |SCHEME| <= h <= end <= |s|
    ensures MatchHost(s, end, h) == None ==> forall k :: |SCHEME| <= k <= h ==> !ColonFits(s, end, k)
    ensures MatchHost(s, end, h).Some? ==>
              && |SCHEME| <= c <= h && ColonFits(s, end, c) && MatchHost(s, end, h).value == UrlAt(s, end, c)
              && (forall k :: c < k <= h ==> !ColonFits(s, end, k))
    decreases h
  {
    MatchHostAt(s, end, h);
    c := h;
    if !ColonFits(s, end, h) && h > |SCHEME| {
      c := MatchHostIs(s, end, h - 1);
    }
  }

  lemma {:induction false} DigitsEndIs(s: string, from: nat, e: nat)
    requires from <= e <= |s|
    requires forall i :: from <= i < e ==> IsDigit(s[i])
    requires e < |s| ==> !IsDigit(s[e])
    ensures DigitsEnd(s, from) == e
    decreases e - from
  {
    if from < e {
      DigitsEndIs(s, from + 1, e);
    }
  }

  lemma {:induction false} LineEndIsPast(s: string, from: nat, q: nat)
    requires from <= q <= |s|
    requires forall i :: from <= i < q ==> s[i] != '\n'
    ensures q <= LineEnd(s, from)
    ensures q == |s| || s[q] == '\n' ==> LineEnd(s, from) == q
    decreases q - from
  {
    if from < q {
      LineEndIsPast(s, from + 1, q);
    }
  }

  /** s, cut into the pieces of r. */
  predicate Pieces(s: string, r: Reading) {
    var h := |SCHEME| + |r.url.host|;
    var p := h + 1 + |r.url.port|;
    var f := p + |Slash(r.extraSlash)|;
    var q := f + |r.url.file|;
    && q <= |s| && SCHEME <= s
    && s[|SCHEME|..h] == r.url.host && s[h] == ':' && s[h + 1..p] == r.url.port
    && s[p..f] == Slash(r.extraSlash) && s[f..q] == r.url.file && s[q..] == r.rest
  }

  /** Where the pieces of a printed reading lie. */
  lemma {:induction false} PrintedPieces(r: Reading)
    ensures Pieces(Print(r), r)
  {
    var s := Print(r);
    var h := |SCHEME| + |r.url.host|;
    var t5 := r.url.file + r.rest;
    var t4 := Slash(r.extraSlash) + t5;
    var t3 := r.url.port + t4;
    var t2 := ":" + t3;
    assert s[|SCHEME|..] == r.url.host + t2;
    assert s[h..] == t2;
    assert s[h + 1..] == t3;
    assert s[h + 1 + |r.url.port|..] == t4;
    assert s[h + 1 + |r.url.port| + |Slash(r.extraSlash)|..] == t5;
  }

  /** A text cut at five places prints from its pieces. */
  lemma {:induction false} PrintOfPieces(s: string, c: nat, e: nat, f: nat, end: nat, r: Reading)
    requires SCHEME <= s && |SCHEME| <= c < e <= f <= end <= |s| && s[c] == ':'
    requires r.url == Url(s[|SCHEME|..c], s[c + 1..e], s[f..end])
    requires s[e..f] == Slash(r.extraSlash) && r.rest == s[end..]
    ensures s == Print(r)
  {
    CutAt(s, f, end);
    CutAt(s, e, f);
    CutAt(s, c + 1, e);
    CutAt(s, c, c + 1);
    assert s[c..c + 1] == ":";
    CutAt(s, |SCHEME|, c);
    assert s == SCHEME + s[|SCHEME|..];
  }

  lemma CutAt(s: string, i: nat, j: nat)
    requires i <= j <= |s|
    ensures s[i..] == s[i..j] + s[j..]
  {
  }

  /** The pieces of a reading, up to the end of its file, hold no newline. */
  lemma {:induction false} ReadingLine(s: string, r: Reading, q: nat)
    requires Pieces(s, r) && Fits(r.url)
    requires q == |SCHEME| + |r.url.host| + 1 + |r.url.port| + |Slash(r.extraSlash)| + |r.url.file|
    ensures q <= |s| && forall i :: |SCHEME| <= i < q ==> s[i] != '\n'
  {
    var u := r.url;
    var h := |SCHEME| + |u.host|;
    var p := h + 1 + |u.port|;
    var f := p + |Slash(r.extraSlash)|;
    forall i | |SCHEME| <= i < q ensures s[i] != '\n' {
      if i < h { assert s[i] == u.host[i - |SCHEME|]; }
      else if i == h { assert s[i] == ':'; }
      else if i < p { assert s[i] == u.port[i - h - 1] && IsDigit(s[i]); }
      else if i < f { assert s[i] == s[p..f][i - p] == Slash(r.extraSlash)[i - p] == '/'; }
      else { assert s[i] == u.file[i - f]; }
    }
  }

  /** A reading of s puts a colon where the engine looks for one. */
  lemma {:induction false} ReadingFits(s: string, r: Reading)
    requires Reads(s, r)
    ensures SCHEME <= s
    ensures var h := |SCHEME| + |r.url.host|; var end := LineEnd(s, |SCHEME|);
            && h < end && ColonFits(s, end, h)
            && DigitsEnd(s, h + 1) == h + 1 + |r.url.port|
            && s[|SCHEME|..h] == r.url.host
            && h + 1 + |r.url.port| + |Slash(r.extraSlash)| + |r.url.file| <= end
  {
    PrintedPieces(r);
    PiecesFit(s, r);
  }

  lemma {:induction false} PiecesFit(s: string, r: Reading)
    requires Pieces(s, r) && Fits(r.url)
    ensures SCHEME <= s
    ensures var h := |SCHEME| + |r.url.host|; var end := LineEnd(s, |SCHEME|);
            && h < end && ColonFits(s, end, h)
            && DigitsEnd(s, h + 1) == h + 1 + |r.url.port|
            && s[|SCHEME|..h] == r.url.host
            && h + 1 + |r.url.port| + |Slash(r.extraSlash)| + |r.url.file| <= end
  {
    var u := r.url;
    var h := |SCHEME| + |u.host|;
    var p := h + 1 + |u.port|;
    var f := p + |Slash(r.extraSlash)|;
    var q := f + |u.file|;
    ReadingLine(s, r, q);
    LineEndIsPast(s, |SCHEME|, q);
    assert s[p] == '/' by {
      if r.extraSlash { assert s[p] == s[p..f][0]; } else { assert s[p] == s[f..q][0]; }
    }
    forall i | h + 1 <= i < p ensures IsDigit(s[i]) {
      assert s[i] == u.port[i - h - 1];
    }
    DigitsEndIs(s, h + 1, p);
  }

  /** The reading the engine's result stands for. */
  function ReadingAt(s: string, c: nat): (r: Reading)
    requires SCHEME <= s && |SCHEME| <= c && ColonFits(s, LineEnd(s, |SCHEME|), c)
  {
    var end := LineEnd(s, |SCHEME|);
    var e := DigitsEnd(s, c + 1);
    var extra := e + 1 < end && s[e + 1] == '/';
    Reading(UrlAt(s, end, c), extra, s[end..])
  }

  lemma {:induction false} ReadingAtFits(s: string, c: nat)
    requires SCHEME <= s && |SCHEME| <= c && ColonFits(s, LineEnd(s, |SCHEME|), c)
    ensures Fits(ReadingAt(s, c).url)
    ensures var end := LineEnd(s, |SCHEME|); var e := DigitsEnd(s, c + 1);
            var f := e + |Slash(ReadingAt(s, c).extraSlash)|;
            f < end && ReadingAt(s, c).url.file == s[f..end] && s[e..f] == Slash(ReadingAt(s, c).extraSlash)
  {
    var end := LineEnd(s, |SCHEME|);
    var e := DigitsEnd(s, c + 1);
    FileAt(s, end, e);
  }

  lemma {:induction false} FileAt(s: string, end: nat, e: nat)
    requires e < end <= |s| && s[e] == '/'
    ensures var f := if e + 1 < end && s[e + 1] == '/' then e + 1 else e;
            && MatchFile(s, end, e) == Some(s[f..end]) && f < end && s[f] == '/'
            && s[e..f] == Slash(e + 1 < end && s[e + 1] == '/')
  {
  }

  lemma {:induction false} ReadingAtReads(s: string, c: nat)
    requires SCHEME <= s && |SCHEME| <= c && ColonFits(s, LineEnd(s, |SCHEME|), c)
    ensures Reads(s, ReadingAt(s, c))
  {
    var e := DigitsEnd(s, c + 1);
    ReadingAtFits(s, c);
    PrintOfPieces(s, c, e, e + |Slash(ReadingAt(s, c).extraSlash)|, LineEnd(s, |SCHEME|), ReadingAt(s, c));
  }

  // ---------- main results ----------

  /** The engine returns the first of all readings in its order of preference, and nothing
      exactly when there is no reading at all. */
  lemma {:induction false} MatchIsFirstReading(s: string)
    ensures Match(s) == None <==> !exists r :: Reads(s, r)
    ensures Match(s).Some? ==>
              exists r :: Reads(s, r) && r.url == Match(s).value && forall other :: Reads(s, other) ==> Before(r, other)
  {
    if SCHEME <= s {
      var end := LineEnd(s, |SCHEME|);
      var c := MatchHostIs(s, end, end);
      if Match(s).Some? {
        ReadingAtReads(s, c);
        var r := ReadingAt(s, c);
        forall other | Reads(s, other) ensures Before(r, other) {
          FirstIsBefore(s, c, other);
        }
      } else {
        forall r ensures !Reads(s, r) {
          if Reads(s, r) { ReadingFits(s, r); }
        }
      }
    } else {
      forall r ensures !Reads(s, r) {
        if Reads(s, r) { ReadingFits(s, r); }
      }
    }
  }

  lemma {:induction false} FirstIsBefore(s: string, c: nat, other: Reading)
    requires SCHEME <= s && |SCHEME| <= c && ColonFits(s, LineEnd(s, |SCHEME|), c)
    requires forall k :: c < k <= LineEnd(s, |SCHEME|) ==> !ColonFits(s, LineEnd(s, |SCHEME|), k)
    requires Reads(s, other)
    ensures Before(ReadingAt(s, c), other)
  {
    ReadingFits(s, other);
    var h := |SCHEME| + |other.url.host|;
    var end := LineEnd(s, |SCHEME|);
    var r := ReadingAt(s, c);
    assert h <= c;
    if h == c {
      var e := DigitsEnd(s, c + 1);
      if other.extraSlash {
        assert s[e + 1] == other.url.file[0];
        assert r.extraSlash;
      }
    }
  }

  /** In terms of text: the file starts with a slash and hides no later port, the port is
      the whole digit run, and what stands before the file is one slash iff two follow the port. */
  lemma {:induction false} MatchShape(s: string)
    requires Match(s).Some?
    ensures var u := Match(s).value;
            && Fits(u) && !HasColonDigits(u.file, '/')
            && (exists r :: Reads(s, r) && r.url == u && (r.rest == "" || r.rest[0] == '\n')
                            && (!r.extraSlash ==> !("//" <= u.file)))
  {
    var c := MatchHostIs(s, LineEnd(s, |SCHEME|), LineEnd(s, |SCHEME|));
    ReadingShape(s, c);
    FileHidesNoPort(s, c);
    assert ReadingAt(s, c).url == Match(s).value;
  }

  lemma {:induction false} ReadingShape(s: string, c: nat)
    requires SCHEME <= s && |SCHEME| <= c && ColonFits(s, LineEnd(s, |SCHEME|), c)
    ensures var r := ReadingAt(s, c);
            && Reads(s, r) && (r.rest == "" || r.rest[0] == '\n') && (!r.extraSlash ==> !("//" <= r.url.file))
  {
    ReadingAtReads(s, c);
    ReadingAtFits(s, c);
  }

  lemma {:induction false} FileHidesNoPort(s: string, c: nat)
    requires SCHEME <= s && |SCHEME| <= c && ColonFits(s, LineEnd(s, |SCHEME|), c)
    requires forall k :: c < k <= LineEnd(s, |SCHEME|) ==> !ColonFits(s, LineEnd(s, |SCHEME|), k)
    ensures !HasColonDigits(ReadingAt(s, c).url.file, '/')
  {
    ReadingAtFits(s, c);
    NoPortBehind(s, LineEnd(s, |SCHEME|), c, DigitsEnd(s, c + 1) + |Slash(ReadingAt(s, c).extraSlash)|);
  }

  lemma {:induction false} NoPortBehind(s: string, end: nat, c: nat, f: nat)
    requires c < f <= end <= |s| && forall k :: c < k <= end ==> !ColonFits(s, end, k)
    ensures !HasColonDigits(s[f..end], '/')
  {
    forall i, j ensures !ColonDigitsAt(s[f..end], '/', i, j) {
      if ColonDigitsAt(s[f..end], '/', i, j) {
        PortInside(s, end, f, i, j);
      }
    }
  }

  /** A colon, digits and a slash in the file would be read as a port. */
  lemma {:induction false} PortInside(s: string, end: nat, f: nat, i: nat, j: nat)
    requires f <= end <= |s| && ColonDigitsAt(s[f..end], '/', i, j)
    ensures ColonFits(s, end, f + i)
  {
    var file := s[f..end];
    assert s[f + i] == file[i] && s[f + j] == file[j];
    forall k | f + i + 1 <= k < f + j ensures IsDigit(s[k]) {
      assert s[k] == file[k - f];
    }
    DigitsEndIs(s, f + i + 1, f + j);
  }

  /** A printed URL is read back as its parts exactly when its file hides no later port and,
      if printed without the extra slash, does not start with two. */
  lemma {:induction false} RoundTrip(u: Url)
    requires Fits(u)
    ensures Match(Print(Reading(u, true, ""))) == Some(u) <==> !HasColonDigits(u.file, '/')
    ensures Match(Print(Reading(u, false, ""))) == Some(u) <==> !HasColonDigits(u.file, '/') && !("//" <= u.file)
    ensures !HasColonDigits(u.file, '/') && "//" <= u.file ==>
              Match(Print(Reading(u, false, ""))) == Some(u.(file := u.file[1..]))
  {
    if !HasColonDigits(u.file, '/') {
      MatchPrinted(u, true);
      MatchPrinted(u, false);
    } else {
      if Match(Print(Reading(u, true, ""))) == Some(u) {
        MatchShape(Print(Reading(u, true, "")));
      }
      if Match(Print(Reading(u, false, ""))) == Some(u) {
        MatchShape(Print(Reading(u, false, "")));
      }
    }
  }

  /** After a port and its slash, a file that hides no later port leaves no later colon
      the pattern can be read with. */
  lemma {:induction false} ColonIsLast(s: string, h: nat, p: nat, f: nat, k: nat)
    requires h < p <= f <= |s|
    requires forall i :: h < i < p ==> IsDigit(s[i])
    requires forall i :: p <= i < f ==> s[i] == '/'
    requires !HasColonDigits(s[f..], '/')
    requires h < k <= |s|
    ensures !ColonFits(s, |s|, k)
  {
    if f <= k && ColonFits(s, |s|, k) {
      var file := s[f..];
      var j := DigitsEnd(s, k + 1);
      assert file[k - f] == s[k] && file[j - f] == s[j];
      forall i | k - f < i < j - f ensures IsDigit(file[i]) {
        assert file[i] == s[f + i];
      }
      assert ColonDigitsAt(file, '/', k - f, j - f);
    }
  }

  /** If the last fitting colon is at h, the engine stops there. */
  lemma {:induction false} MatchAt(s: string, h: nat, p: nat, u: Url)
    requires SCHEME <= s && |SCHEME| <= h < p <= |s| && LineEnd(s, |SCHEME|) == |s| && ColonFits(s, |s|, h)
    requires forall k :: h < k <= |s| ==> !ColonFits(s, |s|, k)
    requires DigitsEnd(s, h + 1) == p && u.host == s[|SCHEME|..h] && u.port == s[h + 1..p]
    requires MatchFile(s, |s|, p) == Some(u.file)
    ensures Match(s) == Some(u)
  {
    var c := MatchHostIs(s, |s|, |s|);
  }

  /** What the file part yields once port and slash are where a reading put them. */
  lemma {:induction false} MatchFilePrinted(s: string, p: nat, f: nat, extraSlash: bool, file: string)
    requires file != "" && file[0] == '/'
    requires p <= f <= |s| && s[p..f] == Slash(extraSlash) && s[f..] == file
    ensures MatchFile(s, |s|, p) == Some(if !extraSlash && "//" <= file then file[1..] else file)
  {
    assert s[f] == file[0];
    assert s[f..|s|] == file;
    if extraSlash {
      assert s[p] == s[p..f][0];
    } else if |file| > 1 {
      assert s[p + 1] == file[1];
      assert s[p + 1..|s|] == file[1..];
      assert "//" <= file <==> file[1] == '/' by {
        if file[1] == '/' { assert file[..2] == "//"; }
      }
    }
  }

  lemma {:induction false} MatchPrinted(u: Url, extraSlash: bool)
    requires Fits(u) && !HasColonDigits(u.file, '/')
    ensures Match(Print(Reading(u, extraSlash, ""))) ==
            Some(if !extraSlash && "//" <= u.file then u.(file := u.file[1..]) else u)
  {
    PrintedPieces(Reading(u, extraSlash, ""));
    MatchOfPieces(Print(Reading(u, extraSlash, "")), u, extraSlash);
  }

  lemma {:induction false} MatchOfPieces(s: string, u: Url, extraSlash: bool)
    requires Fits(u) && !HasColonDigits(u.file, '/')
    requires Pieces(s, Reading(u, extraSlash, ""))
    ensures Match(s) == Some(if !extraSlash && "//" <= u.file then u.(file := u.file[1..]) else u)
  {
    var h := |SCHEME| + |u.host|;
    var p := h + 1 + |u.port|;
    var file := if !extraSlash && "//" <= u.file then u.file[1..] else u.file;
    EngineStops(s, u, extraSlash);
    LastPieces(s, u, extraSlash);
    MatchFilePrinted(s, p, p + |Slash(extraSlash)|, extraSlash, u.file);
    MatchAt(s, h, p, Url(u.host, u.port, file));
  }

  /** The engine looks at the whole text, and its last fitting colon is that of the pieces. */
  lemma {:induction false} EngineStops(s: string, u: Url, extraSlash: bool)
    requires Fits(u) && !HasColonDigits(u.file, '/')
    requires Pieces(s, Reading(u, extraSlash, ""))
    ensures var h := |SCHEME| + |u.host|;
            && h < |s| && LineEnd(s, |SCHEME|) == |s| && ColonFits(s, |s|, h)
            && DigitsEnd(s, h + 1) == h + 1 + |u.port|
            && forall k :: h < k <= |s| ==> !ColonFits(s, |s|, k)
  {
    PiecesFit(s, Reading(u, extraSlash, ""));
    PiecesEndWithFile(s, u, extraSlash);
  }

  /** Nothing is left after the file. */
  lemma {:induction false} LastPieces(s: string, u: Url, extraSlash: bool)
    requires Pieces(s, Reading(u, extraSlash, ""))
    ensures var p := |SCHEME| + |u.host| + 1 + |u.port|; var f := p + |Slash(extraSlash)|;
            && f + |u.file| == |s| && s[p..f] == Slash(extraSlash) && s[f..] == u.file
            && s[|SCHEME| + |u.host| + 1..p] == u.port
  {
    var f := |SCHEME| + |u.host| + 1 + |u.port| + |Slash(extraSlash)|;
    assert |s[f + |u.file|..]| == 0;
  }

  lemma {:induction false} PiecesEndWithFile(s: string, u: Url, extraSlash: bool)
    requires Fits(u) && !HasColonDigits(u.file, '/')
    requires Pieces(s, Reading(u, extraSlash, ""))
    ensures var h := |SCHEME| + |u.host|; var f := h + 1 + |u.port| + |Slash(extraSlash)|;
            && f + |u.file| == |s| && s[f..] == u.file
            && forall k :: h < k <= |s| ==> !ColonFits(s, |s|, k)
  {
    var h := |SCHEME| + |u.host|;
    var p := h + 1 + |u.port|;
    var f := p + |Slash(extraSlash)|;
    assert f + |u.file| == |s| by { assert |s[f + |u.file|..]| == 0; }
    assert s[f..] == u.file;
    forall i | h < i < p ensures IsDigit(s[i]) {
      assert s[i] == u.port[i - h - 1];
    }
    forall i | p <= i < f ensures s[i] == '/' {
      assert s[i] == s[p..f][i - p];
    }
    forall k | h < k <= |s| ensures !ColonFits(s, |s|, k) {
      ColonIsLast(s, h, p, f, k);
    }
  }

  // ---------- in plain text ----------

  lemma {:induction false} PrintIs(u: Url, extraSlash: bool)
    ensures Print(Reading(u, extraSlash, "")) ==
            "fdt://" + u.host + ":" + u.port + (if extraSlash then "/" else "") + u.file
  {
  }

  /** The text fdt://host:port//file, and the one with a single slash. */
  lemma {:induction false} TextRoundTrip(host: string, port: string, file: string)
    requires (forall i :: 0 <= i < |host| ==> host[i] != '\n') && (forall i :: 0 <= i < |file| ==> file[i] != '\n')
    requires port != "" && (forall i :: 0 <= i < |port| ==> '0' <= port[i] <= '9') && file != "" && file[0] == '/'
    requires forall i, j :: 0 <= i && i + 1 < j < |file| && file[i] == ':' && file[j] == '/' ==>
               exists k :: i < k < j && !('0' <= file[k] <= '9')
    ensures Match("fdt://" + host + ":" + port + "/" + file) == Some(Url(host, port, file))
    ensures Match("fdt://" + host + ":" + port + file) ==
            Some(Url(host, port, if |file| > 1 && file[1] == '/' then file[1..] else file))
  {
    assert !HasColonDigits(file, '/') by {
      forall i, j ensures !ColonDigitsAt(file, '/', i, j) {
      }
    }
    PrintedText(Url(host, port, file));
  }

  lemma {:induction false} PrintedText(u: Url)
    requires Fits(u) && !HasColonDigits(u.file, '/')
    ensures Match("fdt://" + u.host + ":" + u.port + "/" + u.file) == Some(u)
    ensures Match("fdt://" + u.host + ":" + u.port + u.file) ==
            Some(Url(u.host, u.port, if |u.file| > 1 && u.file[1] == '/' then u.file[1..] else u.file))
  {
    MatchPrinted(u, true);
    MatchPrinted(u, false);
    PrintIs(u, true);
    PrintIs(u, false);
    assert "fdt://" + u.host + ":" + u.port + "" + u.file == "fdt://" + u.host + ":" + u.port + u.file;
    StartsWithTwo(u.file);
  }

  lemma StartsWithTwo(file: string)
    requires file != "" && file[0] == '/'
    ensures "//" <= file <==> |file| > 1 && file[1] == '/'
  {
    if |file| > 1 && file[1] == '/' {
      assert file[..2] == "//";
    }
  }

  /** Whatever matches starts with the scheme. */
  lemma {:induction false} MatchedStartsWithScheme(s: string)
    requires Match(s).Some?
    ensures "fdt://" <= s
  {
  }

  lemma {:induction false} ColonFreeFile(host: string, port: string, file: string)
    requires '\n' !in host && port != "" && AllDigits(port)
    requires file != "" && file[0] == '/' && ':' !in file && '\n' !in file
    ensures Match("fdt://" + host + ":" + port + "/" + file) == Some(Url(host, port, file))
    ensures Match("fdt://" + host + ":" + port + file) ==
            Some(Url(host, port, if |file| > 1 && file[1] == '/' then file[1..] else file))
  {
    TextRoundTrip(host, port, file);
  }

  /** Some URLs: with the extra slash and without it, ... */
  lemma {:induction false} SomeUrls()
    ensures Match("fdt://a:1//f") == Some(Url("a", "1", "/f"))
    ensures Match("fdt://a:1/f") == Some(Url("a", "1", "/f"))
  {
    ColonFreeFile("a", "1", "/f");
    assert "fdt://" + "a" + ":" + "1" + "/" + "/f" == "fdt://a:1//f";
    assert "fdt://" + "a" + ":" + "1" + "/f" == "fdt://a:1/f";
  }

  /** ... with three slashes, with what looks like a port in the path, and with no host. */
  lemma {:induction false} SomeOddUrls()
    ensures Match("fdt://a.b:12///f") == Some(Url("a.b", "12", "//f"))
    ensures Match("fdt://a:1/b:2/c") == Some(Url("a:1/b", "2", "/c"))
    ensures Match("fdt://:09/") == Some(Url("", "09", "/"))
  {
    ThreeSlashes();
    PortInPath();
    ColonFreeFile("", "09", "/");
    assert "fdt://" + "" + ":" + "09" + "/" == "fdt://:09/";
  }

  lemma {:induction false} ThreeSlashes()
    ensures Match("fdt://a.b:12///f") == Some(Url("a.b", "12", "//f"))
  {
    ColonFreeFile("a.b", "12", "//f");
    assert "fdt://" + "a.b" + ":" + "12" + "/" + "//f" == "fdt://a.b:12///f";
  }

  lemma {:induction false} PortInPath()
    ensures Match("fdt://a:1/b:2/c") == Some(Url("a:1/b", "2", "/c"))
  {
    ColonFreeFile("a:1/b", "2", "/c");
    assert "fdt://" + "a:1/b" + ":" + "2" + "/c" == "fdt://a:1/b:2/c";
  }

  /** Some texts that are none: another scheme, no port, no slash behind it, no colon. */
  lemma {:induction false} SomeOtherTexts()
    ensures Match("ftp://a:1//f") == None
    ensures Match("fdt://a:/f") == None
    ensures Match("fdt://a:1f") == None
    ensures Match("fdt://a/f") == None
    ensures Match("") == None
  {
    assert "ftp://a:1//f"[1] != "fdt://"[1];
    NoPortAfter("fdt://a:/f", 7, 8);
    NoPortAfter("fdt://a:1f", 7, 9);
    NoColon("fdt://a/f");
  }

  /** The only colon after the scheme, at h, is not followed by digits and a slash. */
  lemma {:induction false} NoPortAfter(s: string, h: nat, e: nat)
    requires "fdt://" <= s && 6 <= h < e < |s| && NoNewline(s)
    requires forall i :: 6 <= i < |s| && i != h ==> s[i] != ':'
    requires (forall i :: h < i < e ==> IsDigit(s[i])) && !IsDigit(s[e]) && (e == h + 1 || s[e] != '/')
    ensures Match(s) == None
  {
    LineEndIsPast(s, 6, |s|);
    DigitsEndIs(s, h + 1, e);
    var c := MatchHostIs(s, |s|, |s|);
  }

  lemma {:induction false} NoColon(s: string)
    requires "fdt://" <= s && NoNewline(s) && forall i :: 6 <= i < |s| ==> s[i] != ':'
    ensures Match(s) == None
  {
    LineEndIsPast(s, 6, |s|);
    var c := MatchHostIs(s, |s|, |s|);
  }

  /** What follows a newline is never looked at. */
  lemma {:induction false} NewlineEndsUrl(s: string, t: string)
    requires forall i :: 0 <= i < |s| ==> s[i] != '\n'
    ensures Match(s + "\n" + t) == Match(s)
  {
    var long := s + "\n" + t;
    assert forall i :: 0 <= i < |s| ==> long[i] == s[i];
    assert long[|s|] == '\n';
    assert SCHEME <= long <==> SCHEME <= s by {
      assert SCHEME <= long ==> |SCHEME| <= |s|;
    }
    if SCHEME <= s {
      LineEndIsPast(s, |SCHEME|, |s|);
      LineEndIsPast(long, |SCHEME|, |s|);
      var c := MatchHostIs(s, |s|, |s|);
      var c' := MatchHostIs(long, |s|, |s|);
      forall k | |SCHEME| <= k <= |s| ensures ColonFits(s, |s|, k) <==> ColonFits(long, |s|, k) {
        SameColon(s, long, k);
      }
      if ColonFits(s, |s|, c) && ColonFits(long, |s|, c') {
        SameColon(s, long, c);
      }
    }
  }

  lemma {:induction false} SameColon(s: string, long: string, k: nat)
    requires |s| < |long| && s == long[..|s|] && long[|s|] == '\n' && |SCHEME| <= k <= |s|
    ensures ColonFits(s, |s|, k) <==> ColonFits(long, |s|, k)
    ensures ColonFits(s, |s|, k) ==> UrlAt(s, |s|, k) == UrlAt(long, |s|, k)
  {
    if k < |s| {
      var e := DigitsEnd(s, k + 1);
      assert long[k] == s[k] && forall i :: k < i < e ==> long[i] == s[i];
      DigitsEndIs(long, k + 1, e);
      if ColonFits(s, |s|, k) {
        SameFile(s, long, e);
        assert s[|SCHEME|..k] == long[|SCHEME|..k] && s[k + 1..e] == long[k + 1..e];
      }
    }
  }

  lemma {:induction false} SameFile(s: string, long: string, e: nat)
    requires |s| < |long| && s == long[..|s|] && e < |s| && s[e] == '/'
    ensures MatchFile(s, |s|, e) == MatchFile(long, |s|, e) && MatchFile(s, |s|, e).Some?
  {
    assert long[e] == s[e] && (e + 1 < |s| ==> long[e + 1] == s[e + 1]);
    assert s[e..|s|] == long[e..|s|] && s[e + 1..|s|] == long[e + 1..|s|];
  }
}
