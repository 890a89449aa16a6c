/** fdtcp's Transfers: the requests of a job file, or the single one of the command line,
    grouped into one transfer per pair of end points. */
module TransferGroups {
  import opened Text
  import opened UrlPattern
  import opened JobFile

  /** The two end points of a transfer. */
  datatype Route = Route(hostSrc: string, portSrc: string, hostDest: string, portDest: string)

  datatype Request = Request(route: Route, fileSrc: string, fileDest: string)

  /** What a Transfer holds of its requests: end points set once, files appended. */
  datatype Group = Group(route: Route, files: seq<string>)

  datatype Error = WrongFormat(url: string) | BadLine(index: nat) | NoRequests | Unreadable

  // ---------- one request ----------

  /** Both URLs must match; whichever does not, the error names the destination. */
  function ParseRequest(urlSrc: string, urlDest: string): Result<Request, Error> {
    match (Match(urlSrc), Match(urlDest))
    case (Some(s), Some(d)) => Ok(Request(Route(s.host, s.port, d.host, d.port), s.file, d.file))
    case _ => Err(WrongFormat(urlDest))
  }

  function Key(r: Route): string {
    r.hostSrc + ":" + r.portSrc + "-" + r.hostDest + ":" + r.portDest
  }

  const SEPARATOR := " / "

  function FileEntry(r: Request): string {
    r.fileSrc + SEPARATOR + r.fileDest
  }

  function Add(groups: map<string, Group>, r: Request): map<string, Group> {
    var k := Key(r.route);
    if k in groups then groups[k := groups[k].(files := groups[k].files + [FileEntry(r)])]
    else groups[k := Group(r.route, [FileEntry(r)])]
  }

  function AddAll(rs: seq<Request>): map<string, Group> {
    if rs == [] then map[] else Add(AddAll(rs[..|rs| - 1]), rs[|rs| - 1])
  }

  // ---------- the key ----------

  /** End points the URL pattern can produce. */
  predicate IsRoute(r: Route) {
    && NoNewline(r.hostSrc) && NoNewline(r.hostDest)
    && r.portSrc != "" && AllDigits(r.portSrc) && r.portDest != "" && AllDigits(r.portDest)
  }

  lemma {:induction false} LastColon(a: string, x: string, b: string, y: string)
    requires a + ":" + x == b + ":" + y
    requires AllDigits(x) && AllDigits(y)
    ensures a == b && x == y
  {
    var s := a + ":" + x;
    var t := b + ":" + y;
    assert s[|a|] == ':' && t[|b|] == ':';
    assert forall i :: |a| < i < |s| ==> s[i] == x[i - |a| - 1];
    assert forall i :: |b| < i < |t| ==> t[i] == y[i - |b| - 1];
    assert |a| == |b|;
    assert s[..|a|] == a && t[..|b|] == b;
    assert s[|a| + 1..] == x && t[|b| + 1..] == y;
  }

  /** Where the parts of "host:digits-rest" lie. */
  lemma {:induction false} FrontParts(h: string, p: string, d: string)
    ensures var s := h + ":" + p + "-" + d; var j := |h| + 1 + |p|;
            && |s| == j + 1 + |d| && s[..|h|] == h && s[|h|] == ':'
            && s[|h| + 1..j] == p && s[j] == '-' && s[j + 1..] == d
    ensures AllDigits(p) ==> forall k :: |h| < k < |h| + 1 + |p| ==> IsDigit((h + ":" + p + "-" + d)[k])
  {
    var s := h + ":" + p + "-" + d;
    assert forall k :: |h| < k < |h| + 1 + |p| ==> s[k] == p[k - |h| - 1];
  }

  /** "host:digits-rest" can be cut in one way only if neither host nor rest hides another
      colon, digits and dash. */
  lemma {:induction false} FrontIsUnique(h: string, p: string, d: string, h': string, p': string, d': string)
    requires h + ":" + p + "-" + d == h' + ":" + p' + "-" + d'
    requires AllDigits(p) && AllDigits(p') && p != "" && p' != ""
    requires !HasColonDigits(h, '-') && !HasColonDigits(d, '-')
    ensures h == h' && p == p' && d == d'
  {
    var s := h + ":" + p + "-" + d;
    FrontParts(h, p, d);
    FrontParts(h', p', d');
    if |h'| < |h| {
      CutInsideFirst(s, h, |h'|, |h'| + 1 + |p'|);
    } else if |h| < |h'| {
      CutInsideLast(s, |h| + 1 + |p|, d, |h'|, |h'| + 1 + |p'|);
    } else {
      SameRun(s, |h|, |h| + 1 + |p|, |h| + 1 + |p'|);
    }
  }

  lemma {:induction false} CutInsideFirst(s: string, h: string, i: nat, j: nat)
    requires i < |h| < |s| && s[..|h|] == h && s[|h|] == ':'
    requires ColonDigitsAt(s, '-', i, j)
    ensures HasColonDigits(h, '-')
  {
    assert j < |h|;
    assert forall k :: 0 <= k < |h| ==> h[k] == s[k];
    assert ColonDigitsAt(h, '-', i, j);
  }

  lemma {:induction false} CutInsideLast(s: string, n: nat, d: string, i: nat, j: nat)
    requires n < i && n < |s| && s[n + 1..] == d
    requires ColonDigitsAt(s, '-', i, j)
    ensures HasColonDigits(d, '-')
  {
    assert forall k :: n < k < |s| ==> d[k - n - 1] == s[k];
    forall k | i - n - 1 < k < j - n - 1 ensures IsDigit(d[k]) {
      assert d[k] == s[k + n + 1];
    }
    assert ColonDigitsAt(d, '-', i - n - 1, j - n - 1);
  }

  lemma {:induction false} SameRun(s: string, i: nat, j: nat, j': nat)
    requires ColonDigitsAt(s, '-', i, j) && ColonDigitsAt(s, '-', i, j')
    ensures j == j'
  {
  }

  /** A colon, digits and a dash inside a host let the key be read another way. */
  lemma {:induction false} OtherSource(r: Route, i: int, j: int) returns (q: Route)
    requires IsRoute(r) && ColonDigitsAt(r.hostSrc, '-', i, j)
    ensures IsRoute(q) && q != r && Key(q) == Key(r)
  {
    var h := r.hostSrc;
    var tail := ":" + r.portSrc + "-" + r.hostDest;
    q := Route(h[..i], h[i + 1..j], h[j + 1..] + tail, r.portDest);
    assert h == h[..i] + ":" + h[i + 1..j] + "-" + h[j + 1..];
    assert q.hostSrc + ":" + q.portSrc + "-" + q.hostDest == h + tail;
    assert r.hostSrc + ":" + r.portSrc + "-" + r.hostDest == h + tail;
    assert |q.hostSrc| < |r.hostSrc|;
  }

  lemma {:induction false} OtherDest(r: Route, i: int, j: int) returns (q: Route)
    requires IsRoute(r) && ColonDigitsAt(r.hostDest, '-', i, j)
    ensures IsRoute(q) && q != r && Key(q) == Key(r)
  {
    var h := r.hostDest;
    var front := r.hostSrc + ":" + r.portSrc + "-";
    q := Route(front + h[..i], h[i + 1..j], h[j + 1..], r.portDest);
    assert h == h[..i] + ":" + h[i + 1..j] + "-" + h[j + 1..];
    assert q.hostSrc + ":" + q.portSrc + "-" + q.hostDest == front + h;
    assert r.hostSrc + ":" + r.portSrc + "-" + r.hostDest == front + h;
    assert |q.hostDest| < |r.hostDest|;
  }

  /** The group key identifies the end points exactly when neither host hides a colon, a run
      of digits and a dash; hosts without colons are a special case. */
  lemma {:induction false} KeyIdentifiesRoute(r: Route)
    requires IsRoute(r)
    ensures (forall q :: IsRoute(q) && Key(q) == Key(r) ==> q == r) <==>
            !HasColonDigits(r.hostSrc, '-') && !HasColonDigits(r.hostDest, '-')
  {
    if HasColonDigits(r.hostSrc, '-') {
      var i, j :| ColonDigitsAt(r.hostSrc, '-', i, j);
      var q := OtherSource(r, i, j);
    } else if HasColonDigits(r.hostDest, '-') {
      var i, j :| ColonDigitsAt(r.hostDest, '-', i, j);
      var q := OtherDest(r, i, j);
    } else {
      forall q | IsRoute(q) && Key(q) == Key(r) ensures q == r {
        SameKey(q, r);
      }
    }
  }

  lemma {:induction false} SameKey(q: Route, r: Route)
    requires IsRoute(q) && IsRoute(r) && Key(q) == Key(r)
    requires !HasColonDigits(r.hostSrc, '-') && !HasColonDigits(r.hostDest, '-')
    ensures q == r
  {
    LastColon(q.hostSrc + ":" + q.portSrc + "-" + q.hostDest, q.portDest,
              r.hostSrc + ":" + r.portSrc + "-" + r.hostDest, r.portDest);
    FrontIsUnique(r.hostSrc, r.portSrc, r.hostDest, q.hostSrc, q.portSrc, q.hostDest);
  }

  /** A URL as PhEDEx would name a file. */
  function UrlText(u: Url): string {
    Print(Reading(u, true, ""))
  }

  /** A file the URL pattern can produce; a later port in it would be read as the URL's. */
  ghost predicate IsPath(file: string) {
    file != "" && file[0] == '/' && NoNewline(file) && !HasColonDigits(file, '/')
  }

  /** All end points and paths do come from URLs: these. */
  lemma {:induction false} UrlsOfRequest(r: Request)
    requires IsRoute(r.route) && IsPath(r.fileSrc) && IsPath(r.fileDest)
    ensures ParseRequest(UrlText(Url(r.route.hostSrc, r.route.portSrc, r.fileSrc)),
                         UrlText(Url(r.route.hostDest, r.route.portDest, r.fileDest))) == Ok(r)
  {
    MatchPrinted(Url(r.route.hostSrc, r.route.portSrc, r.fileSrc), true);
    MatchPrinted(Url(r.route.hostDest, r.route.portDest, r.fileDest), true);
  }

  /** Different end points can share a key, also when both come from URLs. */
  lemma {:induction false} KeysCanCollide()
    ensures var a := Request(Route("a", "1", "b:2-c", "3"), "/f", "/g");
            var b := Request(Route("a:1-b", "2", "c", "3"), "/f", "/g");
            && a.route != b.route && Key(a.route) == Key(b.route) == "a:1-b:2-c:3"
            && ParseRequest(UrlText(Url("a", "1", "/f")), UrlText(Url("b:2-c", "3", "/g"))) == Ok(a)
            && ParseRequest(UrlText(Url("a:1-b", "2", "/f")), UrlText(Url("c", "3", "/g"))) == Ok(b)
  {
    var a := Request(Route("a", "1", "b:2-c", "3"), "/f", "/g");
    var b := Request(Route("a:1-b", "2", "c", "3"), "/f", "/g");
    assert Key(a.route) == "a:1-b:2-c:3";
    assert Key(b.route) == "a:1-b:2-c:3";
    assert |"a"| != |"a:1-b"|;
    assert IsPath("/f") && IsPath("/g");
    UrlsOfRequest(a);
    UrlsOfRequest(b);
  }

  /** Requests with colliding keys share a transfer, and the second goes to the first one's hosts. */
  lemma CollidingRequestsMerge(a: Request, b: Request)
    requires Key(a.route) == Key(b.route)
    ensures AddAll([a, b]) == map[Key(a.route) := Group(a.route, [FileEntry(a), FileEntry(b)])]
  {
    var k := Key(a.route);
    assert [a, b][..1] == [a] && [a][..0] == [];
    assert AddAll([a]) == Add(AddAll([]), a) == map[k := Group(a.route, [FileEntry(a)])];
    assert AddAll([a, b]) == Add(AddAll([a]), b);
    assert [FileEntry(a)] + [FileEntry(b)] == [FileEntry(a), FileEntry(b)];
  }

  // ---------- the grouping ----------

  /** The requests with a given key, in input order. */
  function WithKey(rs: seq<Request>, k: string): seq<Request> {
    if rs == [] then []
    else
      var front := WithKey(rs[..|rs| - 1], k);
      var last := rs[|rs| - 1];
      if Key(last.route) == k then front + [last] else front
  }

  function Entries(rs: seq<Request>): (es: seq<string>)
    ensures |es| == |rs| && forall i :: 0 <= i < |rs| ==> es[i] == FileEntry(rs[i])
  {
    seq(|rs|, i requires 0 <= i < |rs| => FileEntry(rs[i]))
  }

  lemma {:induction false} WithKeyNonEmpty(rs: seq<Request>, k: string)
    ensures WithKey(rs, k) != [] <==> exists i :: 0 <= i < |rs| && Key(rs[i].route) == k
    ensures forall i :: 0 <= i < |WithKey(rs, k)| ==> Key(WithKey(rs, k)[i].route) == k && WithKey(rs, k)[i] in rs
  {
    if rs != [] {
      WithKeyNonEmpty(rs[..|rs| - 1], k);
      if Key(rs[|rs| - 1].route) != k && WithKey(rs, k) != [] {
        var i :| 0 <= i < |rs| - 1 && Key(rs[..|rs| - 1][i].route) == k;
        assert Key(rs[i].route) == k;
      }
      if exists i :: 0 <= i < |rs| && Key(rs[i].route) == k {
        var i :| 0 <= i < |rs| && Key(rs[i].route) == k;
        assert i < |rs| - 1 ==> Key(rs[..|rs| - 1][i].route) == k;
      }
    }
  }

  /** Grouping is a stable partition: the groups are the keys that occur, each with exactly
      the requests of its key, in input order, and with the first one's end points. */
  lemma {:induction false} StablePartition(rs: seq<Request>, k: string)
    ensures k in AddAll(rs) <==> exists i :: 0 <= i < |rs| && Key(rs[i].route) == k
    ensures k in AddAll(rs) ==>
              WithKey(rs, k) != [] && AddAll(rs)[k] == Group(WithKey(rs, k)[0].route, Entries(WithKey(rs, k)))
  {
    WithKeyNonEmpty(rs, k);
    GroupOfKey(rs, k);
  }

  lemma {:induction false} GroupOfKey(rs: seq<Request>, k: string)
    ensures k in AddAll(rs) <==> WithKey(rs, k) != []
    ensures k in AddAll(rs) ==> AddAll(rs)[k] == Group(WithKey(rs, k)[0].route, Entries(WithKey(rs, k)))
  {
    if rs != [] {
      var front := rs[..|rs| - 1];
      GroupOfKey(front, k);
      if Key(rs[|rs| - 1].route) == k {
        assert Entries(WithKey(rs, k)) == Entries(WithKey(front, k)) + [FileEntry(rs[|rs| - 1])];
      }
    }
  }

  /** No request is lost or counted twice. */
  ghost function FileCount(groups: map<string, Group>): nat
    decreases |groups|
  {
    if groups == map[] then 0
    else
      var k :| k in groups;
      |groups[k].files| + FileCount(groups - {k})
  }

  lemma {:induction false} FileCountWithout(groups: map<string, Group>, k: string)
    requires k in groups
    ensures FileCount(groups) == |groups[k].files| + FileCount(groups - {k})
    decreases |groups|
  {
    var c :| c in groups && FileCount(groups) == |groups[c].files| + FileCount(groups - {c});
    if c != k {
      FileCountWithout(groups - {c}, k);
      FileCountWithout(groups - {k}, c);
      assert groups - {c} - {k} == groups - {k} - {c};
    }
  }

  lemma {:induction false} CountsSum(rs: seq<Request>)
    ensures FileCount(AddAll(rs)) == |rs|
  {
    if rs != [] {
      var before := AddAll(rs[..|rs| - 1]);
      var k := Key(rs[|rs| - 1].route);
      CountsSum(rs[..|rs| - 1]);
      FileCountWithout(AddAll(rs), k);
      assert AddAll(rs) - {k} == before - {k};
      if k in before {
        FileCountWithout(before, k);
      } else {
        assert before - {k} == before;
      }
    }
  }

  /** Where end points and keys correspond, every file of a transfer belongs to its hosts. */
  lemma {:induction false} FilesBelong(rs: seq<Request>, k: string, i: nat)
    requires forall j :: 0 <= j < |rs| ==>
               && IsRoute(rs[j].route)
               && !HasColonDigits(rs[j].route.hostSrc, '-') && !HasColonDigits(rs[j].route.hostDest, '-')
    requires k in AddAll(rs) && i < |AddAll(rs)[k].files|
    ensures exists r :: r in rs && r.route == AddAll(rs)[k].route && FileEntry(r) == AddAll(rs)[k].files[i]
  {
    StablePartition(rs, k);
    var mine := WithKey(rs, k);
    WithKeyNonEmpty(rs, k);
    SameKey(mine[i].route, mine[0].route);
    assert mine[i] in rs;
  }

  // ---------- the destination paths ----------

  predicate SeparatorAt(s: string, i: int) {
    0 <= i && i + 3 <= |s| && s[i] == ' ' && s[i + 1] == '/' && s[i + 2] == ' '
  }

  /** The index of the first " / " at or after i, or |s|. */
  function FindSeparator(s: string, i: nat): (k: nat)
    requires i <= |s|
    ensures i <= k <= |s|
    ensures k < |s| ==> SeparatorAt(s, k)
    ensures forall j :: i <= j < k ==> !SeparatorAt(s, j)
    decreases |s| - i
  {
    if i == |s| || SeparatorAt(s, i) then i else FindSeparator(s, i + 1)
  }

  lemma {:induction false} FindSeparatorIs(s: string, i: nat, k: nat)
    requires i <= k <= |s|
    requires k < |s| ==> SeparatorAt(s, k)
    requires forall j :: i <= j < k ==> !SeparatorAt(s, j)
    ensures FindSeparator(s, i) == k
    decreases k - i
  {
    if i < k {
      FindSeparatorIs(s, i + 1, k);
    }
  }

  /** entry.split(" / ")[1]: the second piece; None is the IndexError. */
  function DestFile(entry: string): Option<string> {
    var i := FindSeparator(entry, 0);
    if i == |entry| then None
    else Some(entry[i + 3..FindSeparator(entry, i + 3)])
  }

  ghost predicate HasSeparator(s: string) {
    exists i :: SeparatorAt(s, i)
  }

  /** The destination file sent to the receiving server is the request's destination, for a
      source that neither holds nor completes a separator: exactly if the destination holds
      none. */
  lemma {:induction false} DestFileIsDest(r: Request)
    requires !HasSeparator(r.fileSrc + " /")
    ensures DestFile(FileEntry(r)) == Some(r.fileDest) <==> !HasSeparator(r.fileDest)
  {
    var e := FileEntry(r);
    var n := |r.fileSrc|;
    FirstSeparator(r);
    assert e[n + 3..] == r.fileDest;
    assert forall i :: n + 3 <= i < |e| ==> e[i] == r.fileDest[i - n - 3];
    var k := FindSeparator(e, n + 3);
    if i :| SeparatorAt(r.fileDest, i) {
      assert SeparatorAt(e, n + 3 + i);
      assert |e[n + 3..k]| < |r.fileDest|;
    } else {
      assert k < |e| ==> SeparatorAt(r.fileDest, k - n - 3);
      assert e[n + 3..k] == r.fileDest;
    }
  }

  lemma {:induction false} FirstSeparator(r: Request)
    requires !HasSeparator(r.fileSrc + " /")
    ensures FindSeparator(FileEntry(r), 0) == |r.fileSrc| < |FileEntry(r)|
  {
    var e := FileEntry(r);
    var s := r.fileSrc + " /";
    assert forall i :: 0 <= i < |s| ==> e[i] == s[i];
    assert SeparatorAt(e, |r.fileSrc|);
    forall j | 0 <= j < |r.fileSrc| ensures !SeparatorAt(e, j) {
      assert !SeparatorAt(s, j);
    }
    FindSeparatorIs(e, 0, |r.fileSrc|);
  }

  /** Every path without a separator arrives as a destination of the source. */
  ghost predicate CarriesAll(fileSrc: string) {
    forall r: Request :: r.fileSrc == fileSrc && IsPath(r.fileDest) && !HasSeparator(r.fileDest) ==>
      DestFile(FileEntry(r)) == Some(r.fileDest)
  }

  /** ... exactly if the source neither holds nor completes a separator. */
  lemma {:induction false} CarriesAllWhen(fileSrc: string)
    ensures CarriesAll(fileSrc) <==> !HasSeparator(fileSrc + " /")
  {
    if HasSeparator(fileSrc + " /") {
      LongDestIsLost(fileSrc);
    } else {
      forall r: Request | r.fileSrc == fileSrc && !HasSeparator(r.fileDest)
        ensures DestFile(FileEntry(r)) == Some(r.fileDest)
      {
        DestFileIsDest(r);
      }
    }
  }

  function LongPath(n: nat): string {
    "/" + seq(n, _ => 'x')
  }

  /** A destination longer than the source does not arrive when a piece of the source is taken for it. */
  lemma {:induction false} LongDestIsLost(fileSrc: string)
    requires HasSeparator(fileSrc + " /")
    ensures !CarriesAll(fileSrc)
  {
    var r := Request(Route("a", "1", "b", "2"), fileSrc, LongPath(|fileSrc|));
    LongPathIsPath(|fileSrc|);
    WrongPiece(r);
  }

  lemma LongPathIsPath(n: nat)
    ensures IsPath(LongPath(n)) && !HasSeparator(LongPath(n))
  {
  }

  lemma {:induction false} WrongPiece(r: Request)
    requires HasSeparator(r.fileSrc + " /") && r.fileDest == LongPath(|r.fileSrc|)
    ensures DestFile(FileEntry(r)) != Some(r.fileDest)
  {
    var e, n := FileEntry(r), |r.fileSrc|;
    var j :| SeparatorAt(r.fileSrc + " /", j);
    assert forall i :: 0 <= i < n + 2 ==> e[i] == (r.fileSrc + " /")[i];
    assert SeparatorAt(e, j) && SeparatorAt(e, n);
    var i := FindSeparator(e, 0);
    assert i <= j < n;
    var piece := e[i + 3..FindSeparator(e, i + 3)];
    if i + 3 <= n {
      assert |piece| < |r.fileDest|;
    } else {
      assert e[i + 4] == ' ';
      assert |piece| > 1 ==> piece[1] == ' ';
      assert r.fileDest[1] == 'x';
    }
  }

  /** Both ways in which a wrong path is sent, from URLs given on the command line: the
      separator in the source, and in the destination. */
  lemma {:induction false} DestFileCanFail()
    ensures var a := Request(Route("a", "1", "b", "2"), "/x / y", "/z");
            && DestFile(FileEntry(a)) == Some("y")
            && ParseRequest(UrlText(Url("a", "1", "/x / y")), UrlText(Url("b", "2", "/z"))) == Ok(a)
    ensures var b := Request(Route("a", "1", "b", "2"), "/x", "/z / w");
            && DestFile(FileEntry(b)) == Some("/z")
            && ParseRequest(UrlText(Url("a", "1", "/x")), UrlText(Url("b", "2", "/z / w"))) == Ok(b)
  {
    SourceIsCut();
    DestIsCut();
    PlainUrls("/x / y", "/z");
    PlainUrls("/x", "/z / w");
  }

  /** Paths without colons and newlines come from URLs. */
  lemma {:induction false} PlainUrls(fileSrc: string, fileDest: string)
    requires fileSrc != "" && fileSrc[0] == '/' && ':' !in fileSrc && '\n' !in fileSrc
    requires fileDest != "" && fileDest[0] == '/' && ':' !in fileDest && '\n' !in fileDest
    ensures ParseRequest(UrlText(Url("a", "1", fileSrc)), UrlText(Url("b", "2", fileDest))) ==
            Ok(Request(Route("a", "1", "b", "2"), fileSrc, fileDest))
  {
    UrlsOfRequest(Request(Route("a", "1", "b", "2"), fileSrc, fileDest));
  }

  lemma {:induction false} SourceIsCut()
    ensures DestFile(FileEntry(Request(Route("a", "1", "b", "2"), "/x / y", "/z"))) == Some("y")
  {
    var e := FileEntry(Request(Route("a", "1", "b", "2"), "/x / y", "/z"));
    assert e == "/x / y / /z";
    assert SeparatorAt(e, 2) && SeparatorAt(e, 6);
    FindSeparatorIs(e, 0, 2);
    FindSeparatorIs(e, 5, 6);
    assert e[5..6] == "y";
  }

  lemma {:induction false} DestIsCut()
    ensures DestFile(FileEntry(Request(Route("a", "1", "b", "2"), "/x", "/z / w"))) == Some("/z")
  {
    var e := FileEntry(Request(Route("a", "1", "b", "2"), "/x", "/z / w"));
    assert e == "/x / /z / w";
    assert SeparatorAt(e, 2) && SeparatorAt(e, 7);
    FindSeparatorIs(e, 0, 2);
    FindSeparatorIs(e, 5, 7);
    assert e[5..7] == "/z";
  }

  // ---------- the whole file ----------

  /** All requests of a job file's lines, or the first failure. */
  function ParseLines(lines: seq<string>): Result<seq<Request>, Error> {
    if lines == [] then Ok([])
    else
      match ParseLines(lines[..|lines| - 1])
      case Err(e) => Err(e)
      case Ok(rs) =>
        match ReadLine(lines[|lines| - 1])
        case None => Err(BadLine(|lines| - 1))
        case Some(t) =>
          match ParseRequest(t.fromPfn, t.toPfn)
          case Err(e) => Err(e)
          case Ok(r) => Ok(rs + [r])
  }

  lemma {:induction false} ParsedLength(lines: seq<string>)
    ensures ParseLines(lines).Ok? ==> |ParseLines(lines).value| == |lines|
  {
    if lines != [] {
      ParsedLength(lines[..|lines| - 1]);
    }
  }

  predicate IsRequestLine(line: string) {
    ReadLine(line).Some? && ParseRequest(ReadLine(line).value.fromPfn, ReadLine(line).value.toPfn).Ok?
  }

  lemma {:induction false} ParsesWhenAllLinesDo(lines: seq<string>)
    ensures ParseLines(lines).Ok? <==> forall i :: 0 <= i < |lines| ==> IsRequestLine(lines[i])
    ensures ParseLines(lines).Ok? ==>
              && |ParseLines(lines).value| == |lines|
              && forall i :: 0 <= i < |lines| ==>
                   ParseRequest(ReadLine(lines[i]).value.fromPfn, ReadLine(lines[i]).value.toPfn) ==
                   Ok(ParseLines(lines).value[i])
  {
    if lines != [] {
      var front := lines[..|lines| - 1];
      ParsesWhenAllLinesDo(front);
      assert forall i :: 0 <= i < |front| ==> lines[i] == front[i];
      if ParseLines(lines).Ok? {
        var last := lines[|lines| - 1];
        assert IsRequestLine(last);
      }
    }
  }

  /** The exception a job file raises, if any. */
  function LoadError(content: Option<string>): Option<Error> {
    match content
    case None => Some(Unreadable)
    case Some(text) =>
      match ParseLines(Lines(text))
      case Err(e) => Some(e)
      case Ok(rs) => if rs == [] then Some(NoRequests) else None
  }

  /** The container is complete, and a transfer can start, exactly when the file can be read,
      has at least one line and every line is a request. */
  lemma {:induction false} LoadsWhenAllLinesDo(content: Option<string>)
    ensures LoadError(content) == None <==>
            && content.Some? && content.value != ""
            && forall i :: 0 <= i < |Lines(content.value)| ==> IsRequestLine(Lines(content.value)[i])
  {
    if content.Some? {
      ParsesWhenAllLinesDo(Lines(content.value));
      assert Lines(content.value) == [] <==> content.value == "";
    }
  }

  /** A request line holds no whitespace in its file names, and end points the key can name. */
  lemma {:induction false} RequestOfLine(line: string)
    requires IsRequestLine(line)
    ensures var t := ReadLine(line).value;
            var r := ParseRequest(t.fromPfn, t.toPfn).value;
            IsRoute(r.route) && NoSpaces(r.fileSrc) && NoSpaces(r.fileDest)
  {
    WordsAreWords(Trim(line));
    var t := ReadLine(line).value;
    MatchOfWord(t.fromPfn);
    MatchOfWord(t.toPfn);
  }

  lemma {:induction false} MatchOfWord(s: string)
    requires NoSpaces(s) && Match(s).Some?
    ensures Fits(Match(s).value) && NoSpaces(Match(s).value.file)
  {
    MatchShape(s);
    var r :| Reads(s, r) && r.url == Match(s).value;
    PrintedPieces(r);
    FileOfPieces(s, r);
  }

  lemma {:induction false} FileOfPieces(s: string, r: Reading)
    requires Pieces(s, r) && NoSpaces(s)
    ensures NoSpaces(r.url.file)
  {
    var f := |SCHEME| + |r.url.host| + 1 + |r.url.port| + |Slash(r.extraSlash)|;
    assert forall i :: 0 <= i < |r.url.file| ==> r.url.file[i] == s[f + i];
  }

  lemma {:induction false} NoSeparator(s: string)
    requires NoSpaces(s)
    ensures !HasSeparator(s) && !HasSeparator(s + " /")
  {
    forall i ensures !SeparatorAt(s, i) && !SeparatorAt(s + " /", i) {
      assert 0 <= i < |s| ==> (s + " /")[i] == s[i];
    }
  }

  /** The files of every transfer of a job file lead back to its lines' destination paths. */
  lemma {:induction false} DestFilesOfJobFile(lines: seq<string>, k: string, i: nat)
    requires ParseLines(lines).Ok?
    requires k in AddAll(ParseLines(lines).value) && i < |AddAll(ParseLines(lines).value)[k].files|
    ensures var rs := ParseLines(lines).value;
            && i < |WithKey(rs, k)|
            && DestFile(AddAll(rs)[k].files[i]) == Some(WithKey(rs, k)[i].fileDest)
  {
    var rs := ParseLines(lines).value;
    StablePartition(rs, k);
    WithKeyNonEmpty(rs, k);
    var r := WithKey(rs, k)[i];
    var n :| 0 <= n < |rs| && rs[n] == r;
    ParsesWhenAllLinesDo(lines);
    RequestOfLine(lines[n]);
    NoSeparator(r.fileSrc);
    NoSeparator(r.fileDest);
    DestFileIsDest(r);
  }

  // ---------- from the backend's tasks to requests ----------

  /** A URL that survives printing, and holds no whitespace. */
  ghost predicate IsName(u: Url) {
    Fits(u) && !HasColonDigits(u.file, '/') && NoSpaces(u.host) && NoSpaces(u.file)
  }

  function TaskOf(pair: (Url, Url)): Task {
    Task(UrlText(pair.0), UrlText(pair.1))
  }

  function RequestOf(pair: (Url, Url)): Request {
    Request(Route(pair.0.host, pair.0.port, pair.1.host, pair.1.port), pair.0.file, pair.1.file)
  }

  function TasksOf(pairs: seq<(Url, Url)>): (tasks: seq<Task>)
    ensures |tasks| == |pairs| && forall i :: 0 <= i < |pairs| ==> tasks[i] == TaskOf(pairs[i])
  {
    seq(|pairs|, i requires 0 <= i < |pairs| => TaskOf(pairs[i]))
  }

  function RequestsOf(pairs: seq<(Url, Url)>): (rs: seq<Request>)
    ensures |rs| == |pairs| && forall i :: 0 <= i < |pairs| ==> rs[i] == RequestOf(pairs[i])
  {
    seq(|pairs|, i requires 0 <= i < |pairs| => RequestOf(pairs[i]))
  }

  lemma {:induction false} NameIsWord(u: Url)
    requires IsName(u)
    ensures IsWord(UrlText(u)) && Match(UrlText(u)) == Some(u)
  {
    MatchPrinted(u, true);
    TextHoldsNoSpace(u);
    assert |UrlText(u)| >= |SCHEME|;
  }

  lemma NoSpacesInSum(a: string, b: string)
    requires NoSpaces(a) && NoSpaces(b)
    ensures NoSpaces(a + b)
  {
  }

  lemma {:induction false} TextHoldsNoSpace(u: Url)
    requires AllDigits(u.port) && NoSpaces(u.host) && NoSpaces(u.file)
    ensures NoSpaces(UrlText(u))
  {
    NoSpacesInSum(u.file, "");
    NoSpacesInSum("/", u.file + "");
    NoSpacesInSum(u.port, "/" + (u.file + ""));
    NoSpacesInSum(":", u.port + ("/" + (u.file + "")));
    NoSpacesInSum(u.host, ":" + (u.port + ("/" + (u.file + ""))));
    NoSpacesInSum(SCHEME, u.host + (":" + (u.port + ("/" + (u.file + "")))));
  }

  /** The whole way from PhEDEx to fdtcp: pairs of URLs, written as a job file by the backend,
      are read by fdtcp as exactly those requests, in the same order. */
  lemma {:induction false} JobFileCarriesRequests(pairs: seq<(Url, Url)>)
    requires forall i :: 0 <= i < |pairs| ==> IsName(pairs[i].0) && IsName(pairs[i].1)
    ensures ParseLines(Lines(WriteSpec(TasksOf(pairs)))) == Ok(RequestsOf(pairs))
  {
    var tasks := TasksOf(pairs);
    forall i | 0 <= i < |pairs|
      ensures IsPrintable(tasks[i])
      ensures ParseRequest(tasks[i].fromPfn, tasks[i].toPfn) == Ok(RequestOf(pairs[i]))
    {
      NameIsWord(pairs[i].0);
      NameIsWord(pairs[i].1);
    }
    JobFile.RoundTrip(tasks);
    LinesParse(Lines(WriteSpec(tasks)), tasks, RequestsOf(pairs));
  }

  lemma {:induction false} LineByLine(lines: seq<string>, tasks: seq<Task>)
    requires ReadLines(lines) == Ok(tasks)
    ensures |lines| == |tasks| && forall i :: 0 <= i < |lines| ==> ReadLine(lines[i]) == Some(tasks[i])
  {
    if lines != [] {
      LineByLine(lines[1..], tasks[1..]);
    }
  }

  /** The transfers container; an exception leaves the constructor and no transfer is started. */
  class Transfers {
    var transfers: map<string, Group>

    constructor ()
      ensures transfers == map[]
    {
      transfers := map[];
    }

    /** _setTransfer: aggregate into an existing transfer, or create one. */
    method SetTransfer(urlSrc: string, urlDest: string) returns (error: Option<Error>)
      modifies this
      ensures match ParseRequest(urlSrc, urlDest)
              case Err(e) => error == Some(e) && transfers == old(transfers)
              case Ok(r) => error == None && transfers == Add(old(transfers), r)
    {
      if Match(urlSrc) == None {
        return Some(WrongFormat(urlDest));
      }
      if Match(urlDest) == None {
        return Some(WrongFormat(urlDest));
      }
      var src, dest := Match(urlSrc).value, Match(urlDest).value;
      var route := Route(src.host, src.port, dest.host, dest.port);
      var key := Key(route);
      var entry := src.file + SEPARATOR + dest.file;
      if key in transfers {
        transfers := transfers[key := transfers[key].(files := transfers[key].files + [entry])];
      } else {
        transfers := transfers[key := Group(route, [entry])];
      }
      return None;
    }

    /** One turn of the loop over the lines. */
    method ProcessLine(line: string, index: nat) returns (error: Option<Error>)
      modifies this
      ensures match ReadLine(line)
              case None => error == Some(BadLine(index)) && transfers == old(transfers)
              case Some(t) =>
                match ParseRequest(t.fromPfn, t.toPfn)
                case Err(e) => error == Some(e) && transfers == old(transfers)
                case Ok(r) => error == None && transfers == Add(old(transfers), r)
    {
      var urls := Words(Trim(line));
      if |urls| < 2 {
        return Some(BadLine(index));
      }
      error := SetTransfer(urls[0], urls[1]);
    }

    /** _processCopyJobFile. */
    method ProcessCopyJobFile(content: Option<string>) returns (error: Option<Error>)
      requires transfers == map[]
      modifies this
      ensures error == LoadError(content)
      ensures error == None ==> transfers == AddAll(ParseLines(Lines(content.value)).value)
    {
      if content == None {
        return Some(Unreadable);
      }
      var lines := Lines(content.value);
      var index := 0;
      ghost var rs: seq<Request> := [];
      while index < |lines|
        invariant 0 <= index <= |lines|
        invariant ParseLines(lines[..index]) == Ok(rs) && transfers == AddAll(rs)
      {
        ParseNext(lines, index, rs);
        var e := ProcessLine(lines[index], index);
        if e.Some? {
          return e;
        }
        ghost var r := ParseRequest(ReadLine(lines[index]).value.fromPfn, ReadLine(lines[index]).value.toPfn).value;
        AddAllNext(rs, r);
        rs := rs + [r];
        index := index + 1;
      }
      assert lines[..index] == lines;
      ParsedLength(lines);
      AddAllEmpty(rs);
      if transfers == map[] {
        return Some(NoRequests);
      }
      return None;
    }
  }

  lemma AddAllNext(rs: seq<Request>, r: Request)
    ensures AddAll(rs + [r]) == Add(AddAll(rs), r)
  {
    assert (rs + [r])[..|rs|] == rs;
  }

  /** What the line at index adds to the requests before it. */
  lemma {:induction false} ParseNext(lines: seq<string>, index: nat, rs: seq<Request>)
    requires index < |lines| && ParseLines(lines[..index]) == Ok(rs)
    ensures var t := ReadLine(lines[index]);
            if !IsRequestLine(lines[index]) then
              ParseLines(lines) == Err(if t == None then BadLine(index) else WrongFormat(t.value.toPfn))
            else
              ParseLines(lines[..index + 1]) == Ok(rs + [ParseRequest(t.value.fromPfn, t.value.toPfn).value])
  {
    assert lines[..index + 1][..index] == lines[..index];
    PrefixFails(lines, index + 1);
  }

  lemma {:induction false} AddAllEmpty(rs: seq<Request>)
    ensures AddAll(rs) == map[] <==> rs == []
  {
    if rs != [] {
      assert Key(rs[|rs| - 1].route) in AddAll(rs);
    }
  }

  /** The first failing line decides the error. */
  lemma {:induction false} PrefixFails(lines: seq<string>, n: nat)
    requires n <= |lines|
    ensures ParseLines(lines[..n]).Err? ==> ParseLines(lines) == ParseLines(lines[..n])
    decreases |lines|
  {
    if n == |lines| {
      assert lines[..n] == lines;
    } else {
      PrefixFails(lines[..|lines| - 1], n);
      assert lines[..|lines| - 1][..n] == lines[..n];
    }
  }

  // ---------- which exception, which groups ----------

  lemma {:induction false} ParsesFront(lines: seq<string>, i: nat)
    requires i < |lines| && forall k :: 0 <= k < i ==> IsRequestLine(lines[k])
    requires !IsRequestLine(lines[i])
    ensures var t := ReadLine(lines[i]);
            ParseLines(lines) == Err(if t == None then BadLine(i) else WrongFormat(t.value.toPfn))
  {
    assert forall k :: 0 <= k < i ==> lines[..i][k] == lines[k];
    ParsesWhenAllLinesDo(lines[..i]);
    ParseNext(lines, i, ParseLines(lines[..i]).value);
  }

  /** The exception of a file: one that cannot be read, one without any line, and otherwise its
      first bad line: with fewer than two words it is named by its number, and with a first or
      second word that is no URL by the second word. */
  lemma {:induction false} ErrorOfFile(content: Option<string>, i: nat)
    ensures content == None ==> LoadError(content) == Some(Unreadable)
    ensures content == Some("") ==> LoadError(content) == Some(NoRequests)
    ensures content.Some? && i < |Lines(content.value)| && !IsRequestLine(Lines(content.value)[i]) &&
            (forall k :: 0 <= k < i ==> IsRequestLine(Lines(content.value)[k])) ==>
              var words := Words(Trim(Lines(content.value)[i]));
              && LoadError(content) == Some(if |words| < 2 then BadLine(i) else WrongFormat(words[1]))
              && (|words| >= 2 ==> Match(words[0]) == None || Match(words[1]) == None)
  {
    if content.Some? && i < |Lines(content.value)| && !IsRequestLine(Lines(content.value)[i]) &&
       (forall k :: 0 <= k < i ==> IsRequestLine(Lines(content.value)[k]))
    {
      ParsesFront(Lines(content.value), i);
    }
  }

  /** Two lines from a port of host a to one of host b: the sources are the first words, and the
      file is one transfer of two files. */
  lemma {:induction false} TwoLineFile(u: string, v: string, w: string, x: string, f: string, g: string,
                                       f': string, g': string)
    requires IsWord(u) && IsWord(v) && IsWord(w) && IsWord(x)
    requires Match(u) == Some(Url("a", "1", f)) && Match(v) == Some(Url("b", "2", g))
    requires Match(w) == Some(Url("a", "1", f')) && Match(x) == Some(Url("b", "2", g'))
    ensures var rs := ParseLines(Lines(u + " " + v + "\n" + (w + " " + x)));
            && rs == Ok([Request(Route("a", "1", "b", "2"), f, g), Request(Route("a", "1", "b", "2"), f', g')])
            && AddAll(rs.value) == map["a:1-b:2" := Group(Route("a", "1", "b", "2"), [f + " / " + g, f' + " / " + g'])]
  {
    var tasks := [Task(u, v), Task(w, x)];
    SpecOfMore(tasks);
    assert tasks[1..] == [Task(w, x)];
    SpecOfOne(Task(w, x));
    JobFile.RoundTrip(tasks);
    assert WriteSpec(tasks) == u + " " + v + "\n" + (w + " " + x);
    SameGroup(f, g, f', g');
    var a, b := Request(Route("a", "1", "b", "2"), f, g), Request(Route("a", "1", "b", "2"), f', g');
    LinesParse(Lines(WriteSpec(tasks)), tasks, [a, b]);
  }

  lemma {:induction false} SameGroup(f: string, g: string, f': string, g': string)
    ensures AddAll([Request(Route("a", "1", "b", "2"), f, g), Request(Route("a", "1", "b", "2"), f', g')]) ==
            map["a:1-b:2" := Group(Route("a", "1", "b", "2"), [f + " / " + g, f' + " / " + g'])]
  {
    var a, b := Request(Route("a", "1", "b", "2"), f, g), Request(Route("a", "1", "b", "2"), f', g');
    assert Key(a.route) == Key(b.route) == "a:1-b:2";
    CollidingRequestsMerge(a, b);
  }

  lemma SpecOfOne(t: Task)
    ensures WriteSpec([t]) == t.fromPfn + " " + t.toPfn
  {
  }

  lemma {:induction false} LinesParse(lines: seq<string>, tasks: seq<Task>, rs: seq<Request>)
    requires ReadLines(lines) == Ok(tasks) && |tasks| == |rs|
    requires forall i :: 0 <= i < |rs| ==> ParseRequest(tasks[i].fromPfn, tasks[i].toPfn) == Ok(rs[i])
    ensures ParseLines(lines) == Ok(rs)
  {
    LineByLine(lines, tasks);
    forall i | 0 <= i < |lines| ensures IsRequestLine(lines[i]) {
      assert ReadLine(lines[i]) == Some(tasks[i]);
    }
    ParsesWhenAllLinesDo(lines);
    var parsed := ParseLines(lines).value;
    forall i | 0 <= i < |rs| ensures parsed[i] == rs[i] {
      assert ReadLine(lines[i]) == Some(tasks[i]);
    }
    assert parsed == rs;
  }

  /** The request of two URLs written out, and its entry in the list of files; whichever of them
      is no URL, the exception names the second. */
  lemma {:induction false} SomeRequest(u: string, v: string)
    requires Match(u) == Some(Url("a", "1", "/f")) && Match(v) == Some(Url("b", "2", "/g"))
    ensures ParseRequest(u, v) == Ok(Request(Route("a", "1", "b", "2"), "/f", "/g"))
    ensures FileEntry(Request(Route("a", "1", "b", "2"), "/f", "/g")) == "/f / /g"
    ensures DestFile("/f / /g") == Some("/g") && DestFile("/f") == None
    ensures ParseRequest(u, "v") == Err(WrongFormat("v")) && ParseRequest("u", v) == Err(WrongFormat(v))
  {
    assert |"u"| < |SCHEME| && |"v"| < |SCHEME|;
    DestIsDest("/f / /g");
  }

  lemma {:induction false} DestIsDest(e: string)
    requires e == "/f / /g"
    ensures DestFile(e) == Some("/g") && DestFile("/f") == None
  {
    FindSeparatorIs(e, 0, 2);
    FindSeparatorIs(e, 5, 7);
    FindSeparatorIs("/f", 0, 2);
    assert e[5..7] == "/g";
  }
}
