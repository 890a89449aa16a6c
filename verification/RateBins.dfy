/** The transfer rate histogram: bins spread evenly between the least and the greatest rate,
    and each rate counted in the bin nearest to it. Rates are exact real numbers. */
module RateBins {
  import opened Text
  import opened Tally

  const NUM_BINS := 30

  // ---------- the bins ----------

  /** Bin c of the range from mi to ma. */
  function Bin(mi: real, ma: real, c: nat): real {
    mi + c as real * ((ma - mi) / NUM_BINS as real)
  }

  function Bins(mi: real, ma: real): (bins: seq<real>)
    ensures |bins| == NUM_BINS + 1
    ensures forall c :: 0 <= c <= NUM_BINS ==> bins[c] == Bin(mi, ma, c)
  {
    seq(NUM_BINS + 1, c requires 0 <= c => Bin(mi, ma, c))
  }

  lemma {:induction false} BinsAreEven(mi: real, ma: real, c: nat)
    ensures Bin(mi, ma, c + 1) - Bin(mi, ma, c) == (ma - mi) / NUM_BINS as real
    ensures Bin(mi, ma, 0) == mi && Bin(mi, ma, NUM_BINS) == ma
  {
    var b := (ma - mi) / NUM_BINS as real;
    assert (c + 1) as real * b == c as real * b + b;
  }

  /** Thirty-one bins, a thirtieth of the range apart. */
  lemma {:induction false} ThirtyOneBins(mi: real, ma: real, c: nat)
    requires c <= 30
    ensures |Bins(mi, ma)| == 31 && Bins(mi, ma)[c] == mi + (ma - mi) * c as real / 30.0
  {
  }

  lemma {:induction false} BinsStayBelow(mi: real, ma: real, c: nat)
    requires mi < ma && c < NUM_BINS
    ensures Bin(mi, ma, c) < ma
  {
    var b := (ma - mi) / NUM_BINS as real;
    assert c as real * b <= 29.0 * b;
    assert 30.0 * b == ma - mi;
  }

  /** The loop that makes the bins: it ends with exactly NUM_BINS + 1 of them, the first at the
      least rate and the last at the greatest, or with none if all rates are equal. */
  method MakeBins(mi: real, ma: real) returns (bins: seq<real>)
    requires mi <= ma
    ensures bins == if mi < ma then Bins(mi, ma) else []
  {
    bins := [];
    var binSize := (ma - mi) / NUM_BINS as real;
    var currBin := mi;
    var c := 0;
    while currBin < ma
      invariant 0 <= c <= NUM_BINS + 1 && |bins| == c
      invariant currBin == if c == 0 then mi else Bin(mi, ma, c - 1)
      invariant forall k :: 0 <= k < c ==> bins[k] == Bin(mi, ma, k)
      invariant c > 0 ==> mi < ma
      decreases NUM_BINS + 1 - c
    {
      BinsAreEven(mi, ma, c);
      currBin := mi + c as real * binSize;
      bins := bins + [currBin];
      c := c + 1;
    }
    BinsAreEven(mi, ma, 0);
    if 0 < c <= NUM_BINS {
      BinsStayBelow(mi, ma, c - 1);
    }
  }

  // ---------- the nearest bin ----------

  function Distance(x: real, y: real): real {
    if x < y then y - x else x - y
  }

  /** The lowest index among the bins at the least distance. */
  predicate IsNearest(bins: seq<real>, rate: real, i: nat) {
    && i < |bins|
    && (forall j :: 0 <= j < |bins| ==> Distance(bins[i], rate) <= Distance(bins[j], rate))
    && (forall j :: 0 <= j < i ==> Distance(bins[i], rate) < Distance(bins[j], rate))
  }

  method Nearest(bins: seq<real>, rate: real) returns (indToBin: nat)
    requires bins != []
    ensures IsNearest(bins, rate, indToBin)
  {
    indToBin := 0;
    var diff: Option<real> := None;
    for i := 0 to |bins|
      invariant i == 0 <==> diff == None
      invariant indToBin < |bins|
      invariant i > 0 ==> indToBin < i && diff == Some(Distance(bins[indToBin], rate))
      invariant i > 0 ==> forall j :: 0 <= j < i ==> Distance(bins[indToBin], rate) <= Distance(bins[j], rate)
      invariant i > 0 ==> forall j :: 0 <= j < indToBin ==> Distance(bins[indToBin], rate) < Distance(bins[j], rate)
    {
      var currDiff := Distance(bins[i], rate);
      if diff == None || currDiff < diff.value {
        indToBin := i;
        diff := Some(currDiff);
      }
    }
  }

  /** The rates of bin i: those between the middles to its neighbours, the upper one included. */
  predicate InBin(mi: real, ma: real, rate: real, i: nat) {
    var half := (ma - mi) / NUM_BINS as real / 2.0;
    && i <= NUM_BINS
    && (i > 0 ==> Bin(mi, ma, i) - half < rate)
    && (i < NUM_BINS ==> rate <= Bin(mi, ma, i) + half)
  }

  /** A rate of the range is at most half a bin width away from its nearest bin, and lies
      between the middles to the neighbours of that bin. */
  lemma {:induction false} NearestIsWithinHalf(mi: real, ma: real, rate: real, i: nat)
    requires mi < ma && mi <= rate <= ma && IsNearest(Bins(mi, ma), rate, i)
    ensures InBin(mi, ma, rate, i)
    ensures Distance(Bin(mi, ma, i), rate) <= (ma - mi) / NUM_BINS as real / 2.0
  {
    var bins := Bins(mi, ma);
    BinsAreEven(mi, ma, i);
    if i > 0 {
      BinsAreEven(mi, ma, i - 1);
      assert Distance(bins[i], rate) < Distance(bins[i - 1], rate);
    }
    if i < NUM_BINS {
      assert Distance(bins[i], rate) <= Distance(bins[i + 1], rate);
    }
  }

  lemma {:induction false} BinsGrow(mi: real, ma: real, i: nat, j: nat)
    requires mi < ma && i < j
    ensures Bin(mi, ma, i) + (ma - mi) / NUM_BINS as real <= Bin(mi, ma, j)
    decreases j
  {
    BinsAreEven(mi, ma, j - 1);
    if i < j - 1 {
      BinsGrow(mi, ma, i, j - 1);
    }
  }

  /** No rate lies in two bins. */
  lemma {:induction false} BinsAreDisjoint(mi: real, ma: real, rate: real, i: nat, j: nat)
    requires mi < ma && InBin(mi, ma, rate, i) && InBin(mi, ma, rate, j)
    ensures i == j
  {
    if i < j {
      BinsGrow(mi, ma, i, j);
    } else if j < i {
      BinsGrow(mi, ma, j, i);
    }
  }

  // ---------- the histogram ----------

  /** How many of the rates lie in bin i. */
  function CountIn(mi: real, ma: real, rates: seq<real>, i: nat): nat {
    if rates == [] then 0
    else CountIn(mi, ma, rates[..|rates| - 1], i) + if InBin(mi, ma, rates[|rates| - 1], i) then 1 else 0
  }

  predicate Spans(rates: seq<real>, mi: real, ma: real) {
    && mi in rates && ma in rates
    && forall k :: 0 <= k < |rates| ==> mi <= rates[k] <= ma
  }

  /** The counting loops over a range that is not a single point: bin i ends up with exactly
      the rates that lie in it, and every rate is counted once. If all rates are equal there
      is no bin and the first count fails; None stands for that. */
  method CountRates(rates: seq<real>, mi: real, ma: real) returns (y: Option<seq<nat>>)
    requires Spans(rates, mi, ma)
    ensures y.Some? <==> mi < ma
    ensures y.Some? ==> |y.value| == 31 && Sum(y.value) == |rates|
    ensures y.Some? ==> forall i :: 0 <= i <= NUM_BINS ==> y.value[i] == CountIn(mi, ma, rates, i)
  {
    var bins := MakeBins(mi, ma);
    if bins == [] {
      return None;
    }
    var counts: seq<nat> := seq(|bins|, _ => 0);
    SumOfZeros(|bins|);
    for k := 0 to |rates|
      invariant |counts| == NUM_BINS + 1 && Sum(counts) == k
      invariant forall i :: 0 <= i <= NUM_BINS ==> counts[i] == CountIn(mi, ma, rates[..k], i)
    {
      var indToBin := Nearest(bins, rates[k]);
      NearestIsWithinHalf(mi, ma, rates[k], indToBin);
      SumOfUpdate(counts, indToBin);
      assert rates[..k + 1][..k] == rates[..k];
      forall i | 0 <= i <= NUM_BINS && i != indToBin ensures !InBin(mi, ma, rates[k], i) {
        if InBin(mi, ma, rates[k], i) {
          BinsAreDisjoint(mi, ma, rates[k], i, indToBin);
        }
      }
      counts := counts[indToBin := counts[indToBin] + 1];
    }
    assert rates[..|rates|] == rates;
    return Some(counts);
  }
}
