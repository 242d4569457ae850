/** A market that only falls: the pivots findPivots reports in it. */
module FallingMarket {
  import opened PivotSpec
  import opened PivotRuns

  ghost predicate Falls(s: seq<real>) {
    forall i, j :: 0 <= i < j < |s| ==> s[j] < s[i]
  }

  /** A high every 51 candles from the start, a low on the candle before the next one. */
  const CYCLE := MAX_NO_PIVOTS_CANDLES + 1

  function HighCount(n: nat): nat {
    if n < 2 then 0 else (n - 2) / CYCLE + 1
  }

  function LowCount(n: nat): nat {
    if n == 0 then 0 else (n - 1) / CYCLE
  }

  function FallingHighs(count: nat): (s: seq<nat>)
    ensures |s| == count && forall i :: 0 <= i < count ==> s[i] == CYCLE * i
  {
    seq(count, i requires 0 <= i => CYCLE * i)
  }

  function FallingLows(count: nat): (s: seq<nat>)
    ensures |s| == count && forall i :: 0 <= i < count ==> s[i] == CYCLE * i + MAX_NO_PIVOTS_CANDLES
  {
    seq(count, i requires 0 <= i => CYCLE * i + MAX_NO_PIVOTS_CANDLES)
  }

  function FallingPivots(n: nat): Pivots {
    Pivots(FallingHighs(HighCount(n)), FallingLows(LowCount(n)))
  }

  /** What a call on candle m, the first after m falling candles, is to look for. */
  lemma {:induction false} FallingPhase(m: nat)
    requires m >= 1
    ensures var p, l := FallingPivots(m), LowCount(m);
            && IndexSafe(p) && CYCLE * l < m <= CYCLE * l + CYCLE
            && (LookForHigh(p) <==> m == CYCLE * l + 1)
            && HighCount(m) == (if m == CYCLE * l + 1 then l else l + 1)
            && Last(p.pl) == (if l == 0 then 0 else CYCLE * l - 1)
            && (m != CYCLE * l + 1 ==> Last(p.ph) == CYCLE * l)
  {
  }

  lemma {:induction false} FallingExtreme(k: seq<real>, floor: nat, i: nat)
    requires floor < i < |k| && Falls(k)
    ensures Extreme(k, false, floor, i) == i
  {
    ExtremeIsRightmost(k, false, floor, i);
    assert !Beats(false, k[i], k[Extreme(k, false, floor, i)]);
  }

  /** In a falling market a high is confirmed at once. */
  lemma {:induction false} FindsHigh(high: seq<real>, low: seq<real>, m: nat)
    requires Falls(high) && Falls(low) && |high| == |low| == m + 1 && m >= 1 && m == CYCLE * LowCount(m) + 1
    ensures Step(high, low, m, FallingPivots(m)) == FallingPivots(m + 1)
  {
    FallingPhase(m);
    var p, i := FallingPivots(m), m - 1;
    var q := QueryOf(high, low, m, p);
    assert SearchStart(p) == i && Candidate(q, i) == i && NextClears(high, low, true, i);
    assert i !in q.xs;
    assert Scan(q, i) == Some(i);
    FallingPhase(m + 1);
    assert p.ph + [i] == FallingPivots(m + 1).ph;
  }

  /** Without confirming candles only the timeout finds a pivot, on the last but one candle. */
  lemma {:induction false} ScanWaits(q: Query, start: nat)
    requires ValidQuery(q) && forall i: nat :: i + 1 < |q.high| ==> !NextClears(q.high, q.low, q.hi, i)
    ensures !q.late ==> Scan(q, start) == None
    ensures q.late && start + 2 <= |q.high| && Accepts(q, |q.high| - 2) ==> Scan(q, start) == Some(|q.high| - 2)
  {
    ScanFindsFirst(q, start);
  }

  /** A low is not found before the timeout, and then on the candle before the current one. */
  lemma {:induction false} FindsLow(high: seq<real>, low: seq<real>, m: nat)
    requires Falls(high) && Falls(low) && |high| == |low| == m + 1 && m >= 1 && m != CYCLE * LowCount(m) + 1
    ensures Step(high, low, m, FallingPivots(m)) == FallingPivots(m + 1)
  {
    hide Scan;
    FallingPhase(m);
    FallingPhase(m + 1);
    var p, i := FallingPivots(m), m - 1;
    var q := QueryOf(high, low, m, p);
    ScanWaits(q, SearchStart(p));
    if q.late {
      assert m == CYCLE * LowCount(m) + CYCLE;
      if q.back {
        FallingExtreme(low, q.floor, i);
      }
      assert i !in q.xs && Candidate(q, i) == i;
      assert Accepts(q, i);
      assert p.pl + [i] == FallingPivots(m + 1).pl;
    } else {
      assert m < CYCLE * LowCount(m) + CYCLE;
    }
  }

  /** The pivots after any number of falling candles. */
  lemma {:induction false} FallingRun(high: seq<real>, low: seq<real>)
    requires |high| == |low| && Falls(high) && Falls(low)
    ensures Run(high, low) == FallingPivots(|high|)
  {
    if |high| == 0 {
    } else {
      FallingRun(Front(high), Front(low));
      RunUnfolds(high, low);
      var m := |high| - 1;
      if m == 0 {
        assert Scan(QueryOf(high, low, 0, FallingPivots(0)), 0) == None;
      } else if m == CYCLE * LowCount(m) + 1 {
        FindsHigh(high, low, m);
      } else {
        FindsLow(high, low, m);
      }
    }
  }
}
