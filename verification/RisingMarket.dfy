/** A market that only rises: the timeout makes candle 50 the first high and the first low. */
module RisingMarket {
  import opened PivotSpec
  import opened PivotRuns
  import opened PivotTheorems
  import FallingMarket

  ghost predicate Rises(s: seq<real>) {
    forall i, j :: 0 <= i < j < |s| ==> s[i] < s[j]
  }

  function FirstPivots(n: nat): Pivots
    requires n <= 53
  {
    Pivots(if n < 52 then [] else [50], if n < 53 then [] else [50])
  }

  lemma {:induction false} NoHighClears(high: seq<real>, low: seq<real>, i: nat)
    requires Rises(high) && Rises(low) && i + 1 < |high| == |low|
    ensures !NextClears(high, low, true, i) && NextClears(high, low, false, i)
  {
  }

  lemma {:induction false} RisingStep(high: seq<real>, low: seq<real>, m: nat)
    requires Rises(high) && Rises(low) && |high| == |low| == m + 1 <= 53
    ensures IndexSafe(FirstPivots(m)) && Step(high, low, m, FirstPivots(m)) == FirstPivots(m + 1)
  {
    hide Scan;
    var p := FirstPivots(m);
    var q := QueryOf(high, low, m, p);
    forall i: nat | i + 1 < |high| ensures !NextClears(high, low, true, i) && NextClears(high, low, false, i) {
      NoHighClears(high, low, i);
    }
    if m < 52 {
      FallingMarket.ScanWaits(q, 0);
      if m == 51 {
        assert Accepts(q, 50) && Candidate(q, 50) == 50;
      }
    } else {
      assert Accepts(q, 50) && Candidate(q, 50) == 50;
      ScanFindsFirst(q, 50);
    }
  }

  lemma {:induction false} RisingStart(high: seq<real>, low: seq<real>)
    requires |high| == |low| <= 53 && Rises(high) && Rises(low)
    ensures Run(high, low) == FirstPivots(|high|)
  {
    hide Inv, Step, IndexSafe;
    if |high| == 0 {
    } else {
      RisingStart(Front(high), Front(low));
      RunUnfolds(high, low);
      RisingStep(high, low, |high| - 1);
    }
  }

  /** In every rising market the lists take the second shape. */
  lemma {:induction false} RisingSharesFirstCandle(high: seq<real>, low: seq<real>)
    requires |high| == |low| >= 53 && Rises(high) && Rises(low)
    ensures StartsShared(Run(high, low)) && !StartsWithHigh(Run(high, low))
  {
    hide Inv;
    RisingStart(high[..53], low[..53]);
    ListsOnlyGrow(high, low, 53);
    SharedShape(high, low);
  }

  lemma {:induction false} SharedShape(high: seq<real>, low: seq<real>)
    requires |high| == |low| && Off(Run(high, low)) == 1
    ensures StartsShared(Run(high, low)) && !StartsWithHigh(Run(high, low))
  {
    ShapeIsOneOfTwo(Run(high, low));
  }
}
