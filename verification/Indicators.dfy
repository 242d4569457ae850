/** calcIndicators: the one-pass moving averages, and the exponential averages carried from candle
    to candle in a global, against their definitions. */
module Indicators {
  const SMA_PERIODS: seq<nat> := [10, 21, 50, 200]
  const EMA_PERIODS: seq<nat> := [21, 55, 200, 377]
  const VOLUME_PERIODS: seq<nat> := [10, 21, 55]

  // ---------- definitions ----------

  function Total(s: seq<real>): real {
    if |s| == 0 then 0.0 else s[0] + Total(s[1..])
  }

  function Average(s: seq<real>): real
    requires |s| > 0
  {
    Total(s) / |s| as real
  }

  /** One smoothing step: the previous average moves towards x by 2/(p + 1) of the distance. */
  function Smoothed(p: nat, previous: real, x: real): real {
    2.0 / (p + 1) as real * (x - previous) + previous
  }

  /** The exponential average of period p over all of s, seeded by the plain average of the first p. */
  function Ema(p: nat, s: seq<real>): real
    requires 1 <= p <= |s|
    decreases |s|
  {
    if |s| == p then Average(s) else Smoothed(p, Ema(p, s[..|s| - 1]), s[|s| - 1])
  }

  /** The averages calcIndicators promises: one for each leading period that s is long enough for. */
  ghost predicate AreSmas(smas: seq<real>, s: seq<real>) {
    && |smas| <= |SMA_PERIODS|
    && (forall j :: 0 <= j < |SMA_PERIODS| ==> (j < |smas| <==> SMA_PERIODS[j] <= |s|))
    && forall j :: 0 <= j < |smas| ==> smas[j] == Average(s[|s| - SMA_PERIODS[j]..])
  }

  ghost predicate AreEmas(emas: seq<real>, s: seq<real>) {
    && |emas| <= |EMA_PERIODS|
    && (forall j :: 0 <= j < |EMA_PERIODS| ==> (j < |emas| <==> EMA_PERIODS[j] <= |s|))
    && forall j :: 0 <= j < |emas| ==> emas[j] == Ema(EMA_PERIODS[j], s)
  }

  /** The current candle's own volume is left out of its averages. */
  ghost predicate AreVolumes(averages: seq<real>, s: seq<real>)
    requires |s| > 0
  {
    && |averages| <= |VOLUME_PERIODS|
    && (forall j :: 0 <= j < |VOLUME_PERIODS| ==> (j < |averages| <==> VOLUME_PERIODS[j] < |s|))
    && forall j :: 0 <= j < |averages| ==> averages[j] == Average(s[|s| - 1 - VOLUME_PERIODS[j]..|s| - 1])
  }

  // ---------- laws ----------

  lemma {:induction false} TotalAppend(s: seq<real>, x: real)
    ensures Total(s + [x]) == Total(s) + x
  {
    if |s| == 0 {
      assert s + [x] == [x] && [x][1..] == [];
    } else {
      assert (s + [x])[1..] == s[1..] + [x];
      TotalAppend(s[1..], x);
    }
  }

  ghost predicate Within(s: seq<real>, lo: real, hi: real) {
    forall i :: 0 <= i < |s| ==> lo <= s[i] <= hi
  }

  lemma {:induction false} TotalWithin(s: seq<real>, lo: real, hi: real)
    requires Within(s, lo, hi)
    ensures |s| as real * lo <= Total(s) <= |s| as real * hi
  {
    if |s| == 0 {
    } else {
      TotalWithin(s[1..], lo, hi);
    }
  }

  lemma {:induction false} Divide(total: real, n: nat, lo: real, hi: real)
    requires n > 0 && n as real * lo <= total <= n as real * hi
    ensures lo <= total / n as real <= hi
  {
    var k := n as real;
    var q := total / k;
    assert q * k == total;
    assert q < lo ==> (lo - q) * k > 0.0;
    assert q > hi ==> (q - hi) * k > 0.0;
  }

  /** Every average stays between any bounds of the values averaged. */
  lemma {:induction false} AverageWithin(s: seq<real>, lo: real, hi: real)
    requires |s| > 0 && Within(s, lo, hi)
    ensures lo <= Average(s) <= hi
  {
    TotalWithin(s, lo, hi);
    Divide(Total(s), |s|, lo, hi);
  }

  lemma {:induction false} WeightAtMostOne(p: nat)
    requires p >= 1
    ensures 0.0 < 2.0 / (p + 1) as real <= 1.0
  {
  }

  lemma {:induction false} Towards(w: real, previous: real, x: real, lo: real, hi: real)
    requires 0.0 <= w <= 1.0 && lo <= previous <= hi && lo <= x <= hi
    ensures lo <= w * (x - previous) + previous <= hi
  {
    assert w * (x - previous) + previous - lo == w * (x - lo) + (1.0 - w) * (previous - lo);
    assert hi - (w * (x - previous) + previous) == w * (hi - x) + (1.0 - w) * (hi - previous);
    assert w * (x - lo) >= 0.0 && (1.0 - w) * (previous - lo) >= 0.0;
    assert w * (hi - x) >= 0.0 && (1.0 - w) * (hi - previous) >= 0.0;
  }

  /** An exponential average lies between any bounds of the closes so far, hence between their
      minimum and their maximum. */
  lemma {:induction false} EmaWithin(p: nat, s: seq<real>, lo: real, hi: real)
    requires 1 <= p <= |s| && Within(s, lo, hi)
    ensures lo <= Ema(p, s) <= hi
    decreases |s|
  {
    if |s| == p {
      AverageWithin(s, lo, hi);
    } else {
      var front, x := s[..|s| - 1], s[|s| - 1];
      EmaWithin(p, front, lo, hi);
      WeightAtMostOne(p);
      Towards(2.0 / (p + 1) as real, Ema(p, front), x, lo, hi);
    }
  }

  function Power(x: real, n: nat): real {
    if n == 0 then 1.0 else x * Power(x, n - 1)
  }

  /** Each of n more candles that close at x leaves (p - 1)/(p + 1) of the distance between the average and x. */
  lemma {:induction false} EmaApproaches(p: nat, s: seq<real>, x: real, n: nat)
    requires 1 <= p <= |s|
    ensures Ema(p, s + seq(n, _ => x)) - x == Power(DistanceLeft(p), n) * (Ema(p, s) - x)
  {
    hide Ema, Power, DistanceLeft, Smoothed;
    var more := s + seq(n, _ => x);
    PowerSteps(DistanceLeft(p), n, Ema(p, s) - x);
    if n == 0 {
      assert more == s;
    } else {
      EmaApproaches(p, s, x, n - 1);
      assert more == s + seq(n - 1, _ => x) + [x];
      EmaNext(p, s + seq(n - 1, _ => x), x);
      OneCloser(p, Ema(p, s + seq(n - 1, _ => x)), x);
    }
  }

  function DistanceLeft(p: nat): real
    requires p >= 1
  {
    (p - 1) as real / (p + 1) as real
  }

  lemma {:induction false} PowerSteps(q: real, n: nat, d: real)
    ensures if n == 0 then Power(q, n) * d == d else q * (Power(q, n - 1) * d) == Power(q, n) * d
  {
  }

  lemma {:induction false} EmaNext(p: nat, s: seq<real>, x: real)
    requires 1 <= p <= |s|
    ensures Ema(p, s + [x]) == Smoothed(p, Ema(p, s), x)
  {
    hide Smoothed;
    assert (s + [x])[..|s|] == s;
  }

  lemma {:induction false} OneCloser(p: nat, previous: real, x: real)
    requires p >= 1
    ensures Smoothed(p, previous, x) - x == DistanceLeft(p) * (previous - x)
  {
    var w := 2.0 / (p + 1) as real;
    assert DistanceLeft(p) == 1.0 - w;
    assert w * (x - previous) + previous - x == (1.0 - w) * (previous - x);
  }

  /** strat1 reads volumeAverage[k] under a test of len(emas) > k; the volume average is then there. */
  lemma {:induction false} VolumeReadsAreSafe(emas: seq<real>, averages: seq<real>, closes: seq<real>,
                                              volumes: seq<real>, k: nat)
    requires |closes| == |volumes| > 0 && AreEmas(emas, closes) && AreVolumes(averages, volumes)
    requires k < 3 && |emas| >= k + 1
    ensures k < |averages|
  {
    assert EMA_PERIODS[k] <= |closes|;
    assert VOLUME_PERIODS[k] < EMA_PERIODS[k];
  }

  // ---------- the periods ----------

  /** The simple averages are those of the last 10, 21, 50 and 200 closes, each as soon as there are as many. */
  lemma {:induction false} SmasAre(smas: seq<real>, s: seq<real>)
    requires AreSmas(smas, s)
    ensures |smas| == if |s| < 10 then 0 else if |s| < 21 then 1 else if |s| < 50 then 2 else if |s| < 200 then 3 else 4
    ensures |s| >= 10 ==> smas[0] == Total(s[|s| - 10..]) / 10.0
    ensures |s| >= 21 ==> smas[1] == Total(s[|s| - 21..]) / 21.0
    ensures |s| >= 50 ==> smas[2] == Total(s[|s| - 50..]) / 50.0
    ensures |s| >= 200 ==> smas[3] == Total(s[|s| - 200..]) / 200.0
  {
    assert (0 < |smas| <==> SMA_PERIODS[0] <= |s|) && (1 < |smas| <==> SMA_PERIODS[1] <= |s|);
    assert (2 < |smas| <==> SMA_PERIODS[2] <= |s|) && (3 < |smas| <==> SMA_PERIODS[3] <= |s|);
  }

  /** The exponential averages are those of periods 21, 55, 200 and 377. */
  lemma {:induction false} EmasAre(emas: seq<real>, s: seq<real>)
    requires AreEmas(emas, s)
    ensures |emas|
         == if |s| < 21 then 0 else if |s| < 55 then 1 else if |s| < 200 then 2 else if |s| < 377 then 3 else 4
    ensures |s| >= 21 ==> emas[0] == Ema(21, s)
    ensures |s| >= 55 ==> emas[1] == Ema(55, s)
    ensures |s| >= 200 ==> emas[2] == Ema(200, s)
    ensures |s| >= 377 ==> emas[3] == Ema(377, s)
  {
    assert (0 < |emas| <==> EMA_PERIODS[0] <= |s|) && (1 < |emas| <==> EMA_PERIODS[1] <= |s|);
    assert (2 < |emas| <==> EMA_PERIODS[2] <= |s|) && (3 < |emas| <==> EMA_PERIODS[3] <= |s|);
  }

  /** The volume averages are those of the 10, 21 and 55 candles before the last one. */
  lemma {:induction false} VolumesAre(averages: seq<real>, s: seq<real>)
    requires |s| > 0 && AreVolumes(averages, s)
    ensures |averages| == if |s| < 11 then 0 else if |s| < 22 then 1 else if |s| < 56 then 2 else 3
    ensures |s| >= 11 ==> averages[0] == Total(s[|s| - 11..|s| - 1]) / 10.0
    ensures |s| >= 22 ==> averages[1] == Total(s[|s| - 22..|s| - 1]) / 21.0
    ensures |s| >= 56 ==> averages[2] == Total(s[|s| - 56..|s| - 1]) / 55.0
  {
    assert (0 < |averages| <==> VOLUME_PERIODS[0] < |s|) && (1 < |averages| <==> VOLUME_PERIODS[1] < |s|);
    assert 2 < |averages| <==> VOLUME_PERIODS[2] < |s|;
  }

  // ---------- the simple averages ----------

  /** Where the pass stands after i closes: an average taken for each period up to i, and either the
      pass is over or the closes last until the next period. */
  ghost predicate OnPass(smas: seq<real>, breakAll: bool, s: seq<real>, i: int) {
    && 0 <= i <= |s| && |smas| <= |SMA_PERIODS|
    && (forall j :: 0 <= j < |smas| ==> SMA_PERIODS[j] <= i && smas[j] == Average(s[|s| - SMA_PERIODS[j]..]))
    && if breakAll then |smas| < |SMA_PERIODS| && |s| < SMA_PERIODS[|smas|]
       else |smas| < |SMA_PERIODS| ==> i < SMA_PERIODS[|smas|] <= |s|
  }

  /** One pass over the latest closes, newest first, taking an average whenever a period is reached. */
  method CalcSmas(candles: seq<real>) returns (smas: seq<real>)
    ensures AreSmas(smas, candles)
  {
    smas := [];
    var runningTotal, breakAll, i := 0.0, false, 0;
    while i < SMA_PERIODS[|SMA_PERIODS| - 1]
      invariant if |candles| < SMA_PERIODS[0] then i == 0 && smas == [] else OnPass(smas, breakAll, candles, i)
      invariant 0 <= i <= |candles| && runningTotal == Total(candles[|candles| - i..])
    {
      if |candles| < SMA_PERIODS[0] || breakAll {
        break;
      }
      runningTotal := runningTotal + candles[|candles| - 1 - i];
      assert candles[|candles| - (i + 1)..] == [candles[|candles| - 1 - i]] + candles[|candles| - i..];
      smas, breakAll := TakeAverage(candles, i, runningTotal, smas);
      i := i + 1;
    }
  }

  /** The search of the periods for the one that ends at close i. */
  method TakeAverage(candles: seq<real>, i: nat, runningTotal: real, before: seq<real>)
    returns (smas: seq<real>, breakAll: bool)
    requires OnPass(before, false, candles, i) && i < |candles| && i < SMA_PERIODS[|SMA_PERIODS| - 1]
    requires runningTotal == Total(candles[|candles| - (i + 1)..])
    ensures OnPass(smas, breakAll, candles, i + 1)
  {
    smas, breakAll := before, false;
    var j := 0;
    while j < |SMA_PERIODS|
      invariant 0 <= j <= |SMA_PERIODS| && smas == before && !breakAll
      invariant forall k :: 0 <= k < j ==> i != SMA_PERIODS[k] - 1
    {
      var p := SMA_PERIODS[j];
      if i == p - 1 {
        assert j == |before|;
        smas := smas + [runningTotal / p as real];
        if j < |SMA_PERIODS| - 1 && |candles| < SMA_PERIODS[j + 1] {
          breakAll := true;
        }
        break;
      }
      j := j + 1;
    }
  }

  // ---------- the exponential averages ----------

  class Emas {
    var previousEmas: seq<real>

    constructor (leftover: seq<real>)
      ensures previousEmas == leftover
    {
      previousEmas := leftover;
    }

    /** Whatever an earlier computation left in the global matters only once an average is carried on. */
    ghost predicate Ready(relIndex: nat, candles: seq<real>)
      reads this
      requires relIndex <= |candles|
    {
      relIndex > 0 ==> AreEmas(previousEmas, candles[..relIndex])
    }

    method CalcEmas(candles: seq<real>, relIndex: nat) returns (emas: seq<real>)
      requires relIndex == |candles| - 1 && Ready(relIndex, candles)
      modifies this
      ensures AreEmas(emas, candles) && previousEmas == emas
      ensures Ready(relIndex + 1, candles)
    {
      emas := [];
      var i := 0;
      while i < |EMA_PERIODS|
        invariant 0 <= i <= |EMA_PERIODS| && |emas| == i && unchanged(this)
        invariant forall j :: 0 <= j < i ==> EMA_PERIODS[j] <= |candles| && emas[j] == Ema(EMA_PERIODS[j], candles)
      {
        var p := EMA_PERIODS[i];
        if relIndex < p - 1 {
          break;
        }
        var ema;
        if relIndex == p - 1 {
          ema := Seed(candles, p);
        } else {
          assert i < |previousEmas| && previousEmas[i] == Ema(p, candles[..relIndex]);
          ema := 2.0 / (p + 1) as real * (candles[|candles| - 1] - previousEmas[i]) + previousEmas[i];
        }
        emas := emas + [ema];
        i := i + 1;
      }
      previousEmas := emas;
      assert candles[..relIndex + 1] == candles;
    }
  }

  /** The plain average an exponential one starts from. */
  method Seed(candles: seq<real>, p: nat) returns (ema: real)
    requires 1 <= p == |candles|
    ensures ema == Ema(p, candles)
  {
    var totalSum, i := 0.0, 0;
    while i < p
      invariant 0 <= i <= p && totalSum == Total(candles[..i])
    {
      totalSum := totalSum + candles[i];
      TotalAppend(candles[..i], candles[i]);
      assert candles[..i + 1] == candles[..i] + [candles[i]];
      i := i + 1;
    }
    assert candles[..p] == candles;
    ema := totalSum / p as real;
  }

  // ---------- the volume averages ----------

  method CalcVolumes(candles: seq<real>, relIndex: nat) returns (volumeAverage: seq<real>)
    requires relIndex == |candles| - 1
    ensures AreVolumes(volumeAverage, candles)
  {
    volumeAverage := [];
    var i := 0;
    while i < |VOLUME_PERIODS|
      invariant 0 <= i <= 3 && |volumeAverage| == i
      invariant forall j :: 0 <= j < i ==> VOLUME_PERIODS[j] <= relIndex
      invariant forall j :: 0 <= j < i ==> volumeAverage[j] == Average(candles[relIndex - VOLUME_PERIODS[j]..relIndex])
    {
      var a := VOLUME_PERIODS[i];
      if relIndex < a {
        break;
      }
      var totalSum, c := 0.0, relIndex - a;
      ghost var window := candles[relIndex - a..relIndex];
      while c < relIndex
        invariant relIndex - a <= c <= relIndex && totalSum == Total(window[..c - (relIndex - a)])
      {
        totalSum := totalSum + candles[c];
        ghost var k := c - (relIndex - a);
        TotalAppend(window[..k], window[k]);
        assert window[..k + 1] == window[..k] + [window[k]];
        c := c + 1;
      }
      assert window[..a] == window;
      volumeAverage := volumeAverage + [totalSum / a as real];
      i := i + 1;
    }
  }
}
