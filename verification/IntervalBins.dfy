/** The histogram of pauses between exceptions: bins of four minutes, and for each pause the
    first bin that is close enough. */
module IntervalBins {
  import opened Text
  import opened Tally

  const BIN_SIZE := 4

  const ENTIRE_PERIOD := 360

  const MINUTE := 60_000_000

  // ---------- the bins ----------

  const BINS := 89

  /** The positions of the bins, in minutes. */
  function Positions(): (x: seq<int>)
    ensures |x| == BINS && forall i :: 0 <= i < BINS ==> x[i] == BIN_SIZE * (i + 1)
  {
    seq(BINS, i => BIN_SIZE * (i + 1))
  }

  method MakeBins() returns (x: seq<int>)
    ensures x == Positions() && |x| == 89 && forall i :: 0 <= i < 89 ==> x[i] == 4 * (i + 1)
  {
    x := [];
    var i := BIN_SIZE;
    while i < ENTIRE_PERIOD
      invariant i == BIN_SIZE * (|x| + 1) && |x| <= BINS
      invariant forall k :: 0 <= k < |x| ==> x[k] == BIN_SIZE * (k + 1)
    {
      x := x + [i];
      i := i + BIN_SIZE;
    }
  }

  function Abs(n: int): nat {
    if n < 0 then -n else n
  }

  /** The test of the search: within half a bin, or one of the first two minutes. */
  predicate Close(minutes: nat, position: int) {
    Abs(minutes - position) <= BIN_SIZE / 2 || minutes < BIN_SIZE / 2
  }

  /** The bin of a pause, as a formula. */
  function BinOf(minutes: nat): Option<nat> {
    if minutes > 358 then None
    else if minutes < 3 then Some(0)
    else Some((minutes - 3) / 4)
  }

  /** The search with its for and else: the first close bin, which is the one of the formula. */
  method FindBin(x: seq<int>, minutes: nat) returns (bin: Option<nat>)
    requires x == Positions()
    ensures bin == BinOf(minutes)
    ensures bin == if minutes > 358 then None else if minutes < 3 then Some(0) else Some((minutes - 3) / 4)
  {
    for i := 0 to |x|
      invariant forall k :: 0 <= k < i ==> !Close(minutes, x[k])
    {
      if Close(minutes, x[i]) {
        FirstClose(minutes, i);
        return Some(i);
      }
    }
    NoneClose(minutes);
    return None;
  }

  lemma {:induction false} FirstClose(minutes: nat, i: nat)
    requires i < BINS && Close(minutes, Positions()[i])
    requires forall k :: 0 <= k < i ==> !Close(minutes, Positions()[k])
    ensures BinOf(minutes) == Some(i)
  {
    if i > 0 {
      assert !Close(minutes, Positions()[i - 1]);
    }
  }

  lemma {:induction false} NoneClose(minutes: nat)
    requires forall k :: 0 <= k < BINS ==> !Close(minutes, Positions()[k])
    ensures BinOf(minutes) == None
  {
    if minutes <= 358 {
      FormulaIsClose(minutes);
    }
  }

  lemma {:induction false} FormulaIsClose(minutes: nat)
    requires minutes <= 358
    ensures BinOf(minutes).value < BINS && Close(minutes, Positions()[BinOf(minutes).value])
  {
    var k := BinOf(minutes).value;
    assert Positions()[k] == 4 * (k + 1);
  }

  // ---------- the pauses ----------

  /** The minutes of a pause as read from its printed hours and minutes; None is the ValueError
      for a text that starts with a number of days. */
  function Minutes(delta: int): Option<nat> {
    if 0 <= delta < 24 * 60 * MINUTE then
      var hours := delta / (60 * MINUTE);
      var minutes := delta / MINUTE % 60;
      Some(60 * hours + minutes)
    else None
  }

  /** For pauses of less than a day that is the number of full minutes. */
  lemma {:induction false} MinutesAreFull(delta: int)
    ensures Minutes(delta) == if 0 <= delta < 86_400_000_000 then Some(delta / 60_000_000) else None
  {
    assert 24 * 60 * MINUTE == 86_400_000_000;
    var m := delta / MINUTE;
    assert m / 60 == delta / (60 * MINUTE);
    assert m == 60 * (m / 60) + m % 60;
  }

  /** The pauses between consecutive timestamps, the zero ones left out. */
  function Pauses(stamps: seq<int>): seq<int> {
    if |stamps| < 2 then []
    else
      var n := |stamps|;
      var delta := stamps[n - 1] - stamps[n - 2];
      Pauses(stamps[..n - 1]) + if delta == 0 then [] else [delta]
  }

  predicate Readable(pauses: seq<int>) {
    forall k :: 0 <= k < |pauses| ==> Minutes(pauses[k]).Some?
  }

  /** How many pauses the formula puts into a bin, or into none. */
  function CountIn(pauses: seq<int>, bin: Option<nat>): nat
    requires Readable(pauses)
  {
    if pauses == [] then 0
    else
      var last := pauses[|pauses| - 1];
      CountIn(pauses[..|pauses| - 1], bin) + if BinOf(Minutes(last).value) == bin then 1 else 0
  }

  datatype Histogram = Histogram(y: seq<nat>, notBinned: nat)

  /** The counts are those of the formula, and account for all pauses. */
  ghost predicate Tallies(h: Histogram, pauses: seq<int>) {
    && |h.y| == BINS && Readable(pauses)
    && (forall i :: 0 <= i < BINS ==> h.y[i] == CountIn(pauses, Some(i)))
    && h.notBinned == CountIn(pauses, None)
    && Sum(h.y) + h.notBinned == |pauses|
  }

  lemma NothingTallied()
    ensures Tallies(Histogram(seq(BINS, _ => 0), 0), [])
  {
    SumOfZeros(BINS);
  }

  /** One pause is searched for and counted. */
  method CountPause(x: seq<int>, h: Histogram, delta: int, ghost pauses: seq<int>) returns (h': Histogram)
    requires x == Positions() && Tallies(h, pauses) && Minutes(delta).Some?
    ensures Tallies(h', pauses + [delta])
  {
    NextCounts(pauses, delta);
    var bin := FindBin(x, Minutes(delta).value);
    if bin.Some? {
      SumOfUpdate(h.y, bin.value);
      h' := h.(y := h.y[bin.value := h.y[bin.value] + 1]);
    } else {
      h' := h.(notBinned := h.notBinned + 1);
    }
  }

  /** The script: it ends exactly if every pause can be read, that is, lies between zero and a
      day; each bin then holds the pauses of the formula, and together with those reported as
      not binned they are all the pauses there are. */
  method CountPauses(stamps: seq<int>) returns (h: Option<Histogram>)
    ensures h.Some? <==> Readable(Pauses(stamps))
    ensures h.Some? ==> Tallies(h.value, Pauses(stamps))
  {
    var x := MakeBins();
    var tally := Histogram(seq(BINS, _ => 0), 0);
    NothingTallied();
    var k := 0;
    ghost var pauses: seq<int> := [];
    while k < |stamps|
      invariant 0 <= k <= |stamps| && pauses == Pauses(stamps[..k])
      invariant Tallies(tally, pauses)
    {
      var previous := if k == 0 then stamps[k] else stamps[k - 1];
      var delta := stamps[k] - previous;
      NextPause(stamps, k);
      if delta != 0 {
        if Minutes(delta) == None {
          UnreadableStays(stamps, k + 1, |pauses|);
          return None;
        }
        tally := CountPause(x, tally, delta, pauses);
        pauses := pauses + [delta];
      }
      k := k + 1;
    }
    assert stamps[..k] == stamps;
    return Some(tally);
  }

  lemma {:induction false} NextPause(stamps: seq<int>, k: nat)
    requires k < |stamps|
    ensures k == 0 || stamps[k] == stamps[k - 1] ==> Pauses(stamps[..k + 1]) == Pauses(stamps[..k])
    ensures k > 0 && stamps[k] != stamps[k - 1] ==>
              Pauses(stamps[..k + 1]) == Pauses(stamps[..k]) + [stamps[k] - stamps[k - 1]]
  {
    assert stamps[..k + 1][..k] == stamps[..k];
  }

  lemma {:induction false} NextCounts(pauses: seq<int>, delta: int)
    requires Readable(pauses) && Minutes(delta).Some?
    ensures Readable(pauses + [delta])
    ensures forall bin :: CountIn(pauses + [delta], bin) ==
                          CountIn(pauses, bin) + if BinOf(Minutes(delta).value) == bin then 1 else 0
  {
    assert (pauses + [delta])[..|pauses|] == pauses;
  }

  /** A pause that cannot be read is still among the pauses of the whole file. */
  lemma {:induction false} UnreadableStays(stamps: seq<int>, k: nat, i: nat)
    requires k <= |stamps| && i < |Pauses(stamps[..k])| && Minutes(Pauses(stamps[..k])[i]) == None
    ensures !Readable(Pauses(stamps))
    decreases |stamps| - k
  {
    if k == |stamps| {
      assert stamps[..k] == stamps;
    } else {
      NextPause(stamps, k);
      UnreadableStays(stamps, k + 1, i);
    }
  }

  /** Timestamps in order and less than a day apart can all be read. */
  lemma {:induction false} OrderedStampsAreReadable(stamps: seq<int>)
    requires forall k :: 0 < k < |stamps| ==> 0 <= stamps[k] - stamps[k - 1] < 86_400_000_000
    ensures Readable(Pauses(stamps))
  {
    if |stamps| >= 2 {
      OrderedStampsAreReadable(stamps[..|stamps| - 1]);
    }
  }

  /** A pause of less than a day is counted in the bin its full minutes fall into, and else not
      binned. */
  lemma {:induction false} OnePause(a: int, b: int, i: nat)
    requires 0 < b - a < 86_400_000_000
    ensures Pauses([a, b]) == [b - a] && Readable([b - a])
    ensures CountIn([b - a], Some(i)) ==
            var minutes := (b - a) / 60_000_000;
            if minutes <= 358 && i == (if minutes < 3 then 0 else (minutes - 3) / 4) then 1 else 0
    ensures CountIn([b - a], None) == if (b - a) / 60_000_000 > 358 then 1 else 0
  {
    MinutesAreFull(b - a);
    assert [a, b][..1] == [a] && [b - a][..0] == [];
    assert Pauses([a]) == [];
    assert CountIn([], Some(i)) == 0 && CountIn([], None) == 0;
  }
}
