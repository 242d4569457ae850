/** A market that turns on every candle: the pivots findPivots reports in it. */
module ZigZag {
  import opened PivotSpec
  import opened PivotRuns

  /** Odd candles lie below their neighbours, even ones above. */
  ghost predicate Turns(s: seq<real>) {
    forall i :: 0 <= i && i + 1 < |s| ==> if i % 2 == 0 then s[i + 1] < s[i] else s[i + 1] > s[i]
  }

  function Evens(count: nat): (s: seq<nat>)
    ensures |s| == count && forall i :: 0 <= i < count ==> s[i] == 2 * i
  {
    seq(count, i requires 0 <= i => 2 * i)
  }

  function Odds(count: nat): (s: seq<nat>)
    ensures |s| == count && forall i :: 0 <= i < count ==> s[i] == 2 * i + 1
  {
    seq(count, i requires 0 <= i => 2 * i + 1)
  }

  function TurningPivots(n: nat): Pivots {
    Pivots(Evens(n / 2), Odds(if n == 0 then 0 else (n - 1) / 2))
  }

  /** Candle m confirms the candle before it, as a high or as a low. */
  lemma {:induction false} FindsTurn(high: seq<real>, low: seq<real>, m: nat)
    requires Turns(high) && Turns(low) && |high| == |low| == m + 1 && m >= 1
    ensures IndexSafe(TurningPivots(m)) && Step(high, low, m, TurningPivots(m)) == TurningPivots(m + 1)
  {
    var p, i := TurningPivots(m), m - 1;
    var q := QueryOf(high, low, m, p);
    assert q.hi == (m % 2 == 1) && NextClears(high, low, q.hi, i);
    if m == 2 {
      assert !NextClears(high, low, false, 0) && !q.late;
      assert Scan(q, 0) == Scan(q, 1);
    } else {
      assert SearchStart(p) == i;
    }
    assert i !in q.xs && Candidate(q, i) == i && Accepts(q, i);
    assert Scan(q, i) == Some(i);
    assert m % 2 == 1 ==> p.ph + [i] == TurningPivots(m + 1).ph && p.pl == TurningPivots(m + 1).pl;
    assert m % 2 == 0 ==> p.pl + [i] == TurningPivots(m + 1).pl && p.ph == TurningPivots(m + 1).ph;
  }

  /** The first candle is no pivot yet. */
  lemma {:induction false} FindsNothing(high: seq<real>, low: seq<real>)
    requires |high| == |low| == 1
    ensures IndexSafe(TurningPivots(0)) && Step(high, low, 0, TurningPivots(0)) == TurningPivots(1)
  {
    assert Scan(QueryOf(high, low, 0, TurningPivots(0)), 0) == None;
  }

  /** The pivots after any number of turning candles: every candle but the last. */
  lemma {:induction false} TurningRun(high: seq<real>, low: seq<real>)
    requires |high| == |low| && Turns(high) && Turns(low)
    ensures Run(high, low) == TurningPivots(|high|)
  {
    hide Inv, Step, IndexSafe;
    if |high| == 0 {
    } else {
      TurningRun(Front(high), Front(low));
      RunUnfolds(high, low);
      var m := |high| - 1;
      if m == 0 {
        FindsNothing(high, low);
      } else {
        FindsTurn(high, low, m);
      }
    }
  }
}
