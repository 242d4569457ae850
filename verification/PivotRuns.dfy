/** Whole runs of the pivot detector: findPivots called once per new candle, from empty lists. */
module PivotRuns {
  import opened PivotSpec

  function Front<T>(s: seq<T>): seq<T>
    requires |s| > 0
  {
    s[..|s| - 1]
  }

  /** The lists after one call for each candle, each call seeing the candles so far. */
  function Run(high: seq<real>, low: seq<real>): (p: Pivots)
    requires |high| == |low|
    ensures IndexSafe(p) && Inv(high, low, p)
  {
    if |high| == 0 then Pivots([], [])
    else
      var p := Run(Front(high), Front(low));
      StepKeepsInv(high, low, p);
      Step(high, low, |high| - 1, p)
  }

  lemma {:induction false} RunUnfolds(high: seq<real>, low: seq<real>)
    requires |high| == |low| > 0
    ensures var p := Run(Front(high), Front(low));
            Run(high, low) == Step(high, low, |high| - 1, p) && |p.pl| <= |Run(high, low).pl|
  {
    hide Inv, Found, IndexSafe;
  }

  /** Neighbouring pivots: b comes after a, within the timeout. */
  predicate Follows(a: nat, b: nat) {
    a < b <= a + MAX_NO_PIVOTS_CANDLES
  }

  /** 1 when the first high and the first low share a candle, else 0. */
  function Off(p: Pivots): nat {
    if |p.ph| > 0 && |p.pl| > 0 && p.ph[0] == p.pl[0] then 1 else 0
  }

  /** Low i follows the high before it. */
  ghost predicate LowFollows(p: Pivots, off: nat, i: nat) {
    off <= i < |p.pl| && i - off < |p.ph| && Follows(p.ph[i - off], p.pl[i])
  }

  /** High i follows the low before it. */
  ghost predicate HighFollows(p: Pivots, off: nat, i: nat) {
    1 <= i < |p.ph| && i - 1 + off < |p.pl| && Follows(p.pl[i - 1 + off], p.ph[i])
  }

  /** Highs and lows alternate: with Off 0 as ph[0] < pl[0] < ph[1] < pl[1] ..., with Off 1 as
      ph[0] == pl[0] == 50 followed by pl[1] < ph[1] < pl[2] < ph[2] ... */
  ghost predicate Shape(p: Pivots) {
    var off := Off(p);
    && 0 <= |p.ph| + off - |p.pl| <= 1
    && (forall i :: off <= i < |p.pl| ==> LowFollows(p, off, i))
    && (forall i :: 1 <= i < |p.ph| ==> HighFollows(p, off, i))
    && (|p.ph| > 0 ==> p.ph[0] <= MAX_NO_PIVOTS_CANDLES)
    && (off == 1 ==> p.ph[0] == MAX_NO_PIVOTS_CANDLES)
  }

  ghost predicate Within(s: seq<nat>, n: nat) {
    forall i :: 0 <= i < |s| ==> s[i] + 1 < n
  }

  /** How the first high came about, and when the first low may share its candle. */
  ghost predicate FirstPivots(high: seq<real>, low: seq<real>, p: Pivots)
    requires |high| == |low| && Within(p.ph, |high|)
  {
    && (|p.ph| > 0 ==> p.ph[0] == MAX_NO_PIVOTS_CANDLES || NextClears(high, low, true, p.ph[0]))
    && (Off(p) == 1 ==> !NextClears(high, low, true, p.ph[0]))
  }

  /** Until both kinds have been seen every confirming candle is used as soon as it arrives. */
  ghost predicate NothingMissed(high: seq<real>, low: seq<real>, p: Pivots)
    requires |high| == |low|
  {
    && (|p.ph| == 0 ==> forall i: nat :: i + 1 < |high| ==> !NextClears(high, low, true, i))
    && (|p.ph| == 1 && |p.pl| == 0 && |high| != p.ph[0] + 2 ==>
          forall i: nat :: p.ph[0] <= i && i + 1 < |high| ==> !NextClears(high, low, false, i))
  }

  /** What holds after every candle. */
  ghost predicate Inv(high: seq<real>, low: seq<real>, p: Pivots)
    requires |high| == |low|
  {
    && Shape(p)
    && Within(p.ph, |high|) && Within(p.pl, |high|)
    && FirstPivots(high, low, p)
    && NothingMissed(high, low, p)
    && |high| <= Latest(p) + MAX_NO_PIVOTS_CANDLES + 1
    && Latest(p) <= MAX_NO_PIVOTS_CANDLES * (|p.ph| + |p.pl|)
  }

  /** A new pivot lies after the latest one and within the timeout; only a first low may
      share the candle of a first high that the timeout put at candle 50. */
  lemma {:induction false} FoundIsNext(high: seq<real>, low: seq<real>, p: Pivots)
    requires |high| == |low| > 0 && IndexSafe(p) && Inv(Front(high), Front(low), p)
    ensures var f := Found(high, low, |high| - 1, p);
            && (f.Some? ==>
                  && IsNext(high, low, p, f.value)
                  && |high| <= f.value + MAX_NO_PIVOTS_CANDLES + 1)
            && (f.None? ==> |high| <= Latest(p) + MAX_NO_PIVOTS_CANDLES + 1 && NothingMissed(high, low, p))
  {
    var q := QueryOf(high, low, |high| - 1, p);
    var start := SearchStart(p);
    ScanFindsFirst(q, start);
    ShapeOrder(p);
    if |p.ph| == 0 || |p.pl| == 0 {
      forall i: nat | start <= i && i + 2 < |high| && (|p.ph| == 1 ==> |high| != p.ph[0] + 3)
        ensures !NextClears(high, low, q.hi, i)
      {
        assert !NextClears(Front(high), Front(low), q.hi, i);
      }
      if Scan(q, start).None? {
        forall i: nat | start <= i && i + 1 < |high|
          ensures !NextClears(high, low, q.hi, i)
        {
          assert !Accepts(q, i);
        }
      }
    }
    if q.late {
      var i := |high| - 2;
      assert i >= start && Candidate(q, i) >= Latest(p);
      assert Candidate(q, i) !in q.xs && i !in q.xs;
      assert Accepts(q, i);
    }
  }

  /** Every listed pivot is at most the latest one, which ends the list not searched for. */
  lemma {:induction false} ShapeOrder(p: Pivots)
    requires Shape(p) && IndexSafe(p)
    ensures forall i :: 0 <= i < |p.ph| ==> p.ph[i] <= Latest(p)
    ensures forall i :: 0 <= i < |p.pl| ==> p.pl[i] <= Latest(p)
    ensures LookForHigh(p) <==> |p.ph| + Off(p) == |p.pl|
    ensures Latest(p) == Last(if LookForHigh(p) then p.pl else p.ph)
  {
    forall i | 0 <= i < |p.ph| ensures p.ph[i] <= Last(p.ph) {
      HighsIncrease(p, i, |p.ph| - 1);
    }
    forall i | 0 <= i < |p.pl| ensures p.pl[i] <= Last(p.pl) {
      LowsIncrease(p, i, |p.pl| - 1);
    }
    var off := Off(p);
    assert |p.pl| > off ==> LowFollows(p, off, |p.pl| - 1);
    assert |p.ph| > 1 ==> HighFollows(p, off, |p.ph| - 1);
  }

  lemma {:induction false} HighsIncrease(p: Pivots, i: nat, j: nat)
    requires Shape(p) && i <= j < |p.ph|
    ensures i < j ==> p.ph[i] < p.ph[j]
    decreases j
  {
    if i == j {
    } else {
      var off := Off(p);
      HighsIncrease(p, i, j - 1);
      assert HighFollows(p, off, j);
      assert j - 1 + off >= off && LowFollows(p, off, j - 1 + off);
    }
  }

  lemma {:induction false} LowsIncrease(p: Pivots, i: nat, j: nat)
    requires Shape(p) && i <= j < |p.pl|
    ensures i < j ==> p.pl[i] < p.pl[j]
    decreases j
  {
    if i == j {
    } else {
      var off := Off(p);
      LowsIncrease(p, i, j - 1);
      assert LowFollows(p, off, j);
      if j - off >= 1 {
        assert HighFollows(p, off, j - off);
      }
    }
  }

  function Append(p: Pivots, hi: bool, k: nat): Pivots {
    if hi then p.(ph := p.ph + [k]) else p.(pl := p.pl + [k])
  }

  /** What FoundIsNext says of a new pivot k. */
  ghost predicate IsNext(high: seq<real>, low: seq<real>, p: Pivots, k: nat)
    requires |high| == |low|
  {
    && Latest(p) <= k <= Latest(p) + MAX_NO_PIVOTS_CANDLES
    && k + 1 < |high|
    && (k == Latest(p) && |p.ph| > 0 ==>
          && |p.pl| == 0 && k == MAX_NO_PIVOTS_CANDLES
          && !NextClears(high, low, true, k))
    && (|p.ph| == 0 ==> k + 2 == |high| && (k == MAX_NO_PIVOTS_CANDLES || NextClears(high, low, true, k)))
  }

  /** One call keeps the invariant. */
  lemma {:induction false} StepKeepsInv(high: seq<real>, low: seq<real>, p: Pivots)
    requires |high| == |low| > 0 && IndexSafe(p) && Inv(Front(high), Front(low), p)
    ensures IndexSafe(Step(high, low, |high| - 1, p)) && Inv(high, low, Step(high, low, |high| - 1, p))
  {
    FoundIsNext(high, low, p);
    var f := Found(high, low, |high| - 1, p);
    if f.Some? {
      StepKeepsShape(p, LookForHigh(p), f.value);
      AppendKeepsRest(high, low, p, LookForHigh(p), f.value);
    }
  }

  lemma {:induction false} AppendKeepsRest(high: seq<real>, low: seq<real>, p: Pivots, hi: bool, k: nat)
    requires |high| == |low| > 0 && IndexSafe(p) && Inv(Front(high), Front(low), p)
    requires hi == LookForHigh(p) && IsNext(high, low, p, k) && |high| <= k + MAX_NO_PIVOTS_CANDLES + 1
    requires Shape(Append(p, hi, k)) && Latest(Append(p, hi, k)) == k
    ensures var p' := Append(p, hi, k);
            && Within(p'.ph, |high|) && Within(p'.pl, |high|)
            && FirstPivots(high, low, p') && NothingMissed(high, low, p')
            && k <= MAX_NO_PIVOTS_CANDLES * (|p'.ph| + |p'.pl|)
  {
    var p' := Append(p, hi, k);
    assert |p'.ph| + |p'.pl| == |p.ph| + |p.pl| + 1;
    assert |p.ph| > 0 ==> p'.ph[0] == p.ph[0] && p.ph[0] + 1 < |high| - 1;
    assert |p.pl| > 0 ==> p'.pl[0] == p.pl[0];
  }

  lemma {:induction false} StepKeepsShape(p: Pivots, hi: bool, k: nat)
    requires IndexSafe(p) && Shape(p) && hi == LookForHigh(p)
    requires Latest(p) <= k <= Latest(p) + MAX_NO_PIVOTS_CANDLES
    requires k == Latest(p) && |p.ph| > 0 ==> |p.pl| == 0 && k == MAX_NO_PIVOTS_CANDLES
    ensures var p' := Append(p, hi, k);
            IndexSafe(p') && Shape(p') && Latest(p') == k
  {
    ShapeOrder(p);
    var p' := Append(p, hi, k);
    var off := Off(p');
    forall i | off <= i < |p'.pl| ensures LowFollows(p', off, i) {
      assert i < |p.pl| ==> LowFollows(p, off, i);
    }
    forall i | 1 <= i < |p'.ph| ensures HighFollows(p', off, i) {
      assert i < |p.ph| ==> HighFollows(p, off, i);
    }
  }
}
