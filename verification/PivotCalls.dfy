/** What one call of findPivots does in a run, told by the prices alone: which candle becomes a pivot, because of
    which, and when none does. */
module PivotCalls {
  import opened PivotSpec
  import opened PivotRuns

  /** Candle j lies below candle i in both series. */
  predicate Below(high: seq<real>, low: seq<real>, i: nat, j: nat)
    requires i < |high| == |low| && j < |high|
  {
    high[j] < high[i] && low[j] < low[i]
  }

  /** Candle j lies above candle i in both series. */
  predicate Above(high: seq<real>, low: seq<real>, i: nat, j: nat)
    requires i < |high| == |low| && j < |high|
  {
    high[j] > high[i] && low[j] > low[i]
  }

  /** Candle i + 1 is there and lies below candle i. */
  predicate FallsAfter(high: seq<real>, low: seq<real>, i: nat)
    requires |high| == |low|
  {
    i + 1 < |high| && Below(high, low, i, i + 1)
  }

  predicate RisesAfter(high: seq<real>, low: seq<real>, i: nat)
    requires |high| == |low|
  {
    i + 1 < |high| && Above(high, low, i, i + 1)
  }

  /** Candle k is the last of the highest candles a .. b. */
  ghost predicate LastHighest(s: seq<real>, a: nat, b: nat, k: nat) {
    a <= k <= b < |s| && (forall f :: a <= f <= k ==> s[f] <= s[k]) && (forall f :: k < f <= b ==> s[f] < s[k])
  }

  /** Candle k is the last of the lowest candles a .. b. */
  ghost predicate LastLowest(s: seq<real>, a: nat, b: nat, k: nat) {
    a <= k <= b < |s| && (forall f :: a <= f <= k ==> s[f] >= s[k]) && (forall f :: k < f <= b ==> s[f] > s[k])
  }

  /** Candle r confirms the first high, or it is candle 51. */
  ghost predicate FirstHighCall(high: seq<real>, low: seq<real>, p: Pivots, p': Pivots, r: nat)
    requires r < |high| == |low|
  {
    p' == if r > 0 && (Below(high, low, r - 1, r) || r == 51) then Pivots([r - 1], []) else p
  }

  /** Candle r confirms the first low, or it is the 51st after the first high; only right after the high was
      found may the low be the high's own candle. */
  ghost predicate FirstLowCall(high: seq<real>, low: seq<real>, p: Pivots, p': Pivots, r: nat)
    requires r < |high| == |low| && |p.ph| == 1 && p.ph[0] + 2 <= r
  {
    var h := p.ph[0];
    p' == if r == h + 2 && Above(high, low, h, h + 1) then Pivots([h], [h])
          else if Above(high, low, r - 1, r) || r == h + 51 then Pivots([h], [r - 1])
          else p
  }

  /** Candle i + 1 makes candle k a high: it lies below candle i and below k, the last of the highest candles
      after l up to i. */
  ghost predicate MakesHigh(high: seq<real>, low: seq<real>, l: nat, i: nat, k: nat)
    requires |high| == |low|
  {
    l < i && i + 1 < |high| && LastHighest(high, l + 1, i, k) && FallsAfter(high, low, i) && Below(high, low, k, i + 1)
  }

  ghost predicate MakesLow(high: seq<real>, low: seq<real>, l: nat, i: nat, k: nat)
    requires |high| == |low|
  {
    l < i && i + 1 < |high| && LastLowest(low, l + 1, i, k) && RisesAfter(high, low, i) && Above(high, low, k, i + 1)
  }

  /** Within fifty candles of the latest pivot the first candle that makes a high decides, if there is one. */
  ghost predicate HighCall(high: seq<real>, low: seq<real>, p: Pivots, p': Pivots, l: nat)
    requires |high| == |low|
  {
    || (&& p' == p && forall i, k :: !MakesHigh(high, low, l, i, k))
    || (exists i, k :: && MakesHigh(high, low, l, i, k) && p' == Pivots(p.ph + [k], p.pl)
                       && forall j, m :: MakesHigh(high, low, l, j, m) ==> i <= j)
  }

  ghost predicate LowCall(high: seq<real>, low: seq<real>, p: Pivots, p': Pivots, l: nat)
    requires |high| == |low|
  {
    || (&& p' == p && forall i, k :: !MakesLow(high, low, l, i, k))
    || (exists i, k :: && MakesLow(high, low, l, i, k) && p' == Pivots(p.ph, p.pl + [k])
                       && forall j, m :: MakesLow(high, low, l, j, m) ==> i <= j)
  }

  /** Candle i + 1 is the first after l + 1 to lie below the candle before it, or the newest one. */
  ghost predicate FirstFall(high: seq<real>, low: seq<real>, l: nat, i: nat)
    requires |high| == |low|
  {
    && l < i && i + 1 < |high| && (FallsAfter(high, low, i) || i + 2 == |high|)
    && forall j: nat :: l < j < i ==> !FallsAfter(high, low, j)
  }

  ghost predicate FirstRise(high: seq<real>, low: seq<real>, l: nat, i: nat)
    requires |high| == |low|
  {
    && l < i && i + 1 < |high| && (RisesAfter(high, low, i) || i + 2 == |high|)
    && forall j: nat :: l < j < i ==> !RisesAfter(high, low, j)
  }

  /** On the call 51 candles after the latest pivot the last of the highest candles before the first fall becomes a
      pivot, whatever follows. */
  ghost predicate LateHighCall(high: seq<real>, low: seq<real>, p: Pivots, p': Pivots, l: nat)
    requires |high| == |low|
  {
    exists i, k :: FirstFall(high, low, l, i) && LastHighest(high, l + 1, i, k) && p' == Pivots(p.ph + [k], p.pl)
  }

  ghost predicate LateLowCall(high: seq<real>, low: seq<real>, p: Pivots, p': Pivots, l: nat)
    requires |high| == |low|
  {
    exists i, k :: FirstRise(high, low, l, i) && LastLowest(low, l + 1, i, k) && p' == Pivots(p.ph, p.pl + [k])
  }

  /** The latest pivot low lies after the latest pivot high. */
  predicate LowIsLatest(p: Pivots)
    requires |p.ph| > 0 && |p.pl| > 0
  {
    p.ph[|p.ph| - 1] < p.pl[|p.pl| - 1]
  }

  function LatestPivot(p: Pivots): nat
    requires |p.ph| > 0 && |p.pl| > 0
  {
    if LowIsLatest(p) then p.pl[|p.pl| - 1] else p.ph[|p.ph| - 1]
  }

  /** The call on the newest candle, p being the lists before it and p' those after it. */
  ghost predicate Call(high: seq<real>, low: seq<real>, p: Pivots, p': Pivots)
    requires |high| == |low| > 0
  {
    var r := |high| - 1;
    if |p.ph| == 0 then r <= 51 && p.pl == [] && FirstHighCall(high, low, p, p', r)
    else if |p.pl| == 0 then |p.ph| == 1 && p.ph[0] + 2 <= r <= p.ph[0] + 51 && FirstLowCall(high, low, p, p', r)
    else
      var l := LatestPivot(p);
      && l + 2 <= r <= l + 51
      && if r == l + 51
         then if LowIsLatest(p) then LateHighCall(high, low, p, p', l) else LateLowCall(high, low, p, p', l)
         else if LowIsLatest(p) then HighCall(high, low, p, p', l) else LowCall(high, low, p, p', l)
  }

  // ---------- the first pivots ----------

  lemma {:induction false} FirstHighFound(high: seq<real>, low: seq<real>, p: Pivots)
    requires |high| == |low| > 0 && IndexSafe(p) && Inv(Front(high), Front(low), p) && |p.ph| == 0
    ensures Call(high, low, p, Step(high, low, |high| - 1, p))
  {
    var r := |high| - 1;
    var q := QueryOf(high, low, r, p);
    ScanFindsFirst(q, 0);
    forall i: nat | i + 2 < |high| ensures !NextClears(high, low, true, i) {
      assert !NextClears(Front(high), Front(low), true, i);
    }
    assert r > 0 ==> (Accepts(q, r - 1) <==> Below(high, low, r - 1, r) || r == 51);
    assert forall i: nat :: i + 2 < |high| ==> !Accepts(q, i);
  }

  lemma {:induction false} FirstLowFound(high: seq<real>, low: seq<real>, p: Pivots)
    requires |high| == |low| > 0 && IndexSafe(p) && Inv(Front(high), Front(low), p) && |p.ph| > 0 && |p.pl| == 0
    ensures Call(high, low, p, Step(high, low, |high| - 1, p))
  {
    var r, h := |high| - 1, p.ph[0];
    var q := QueryOf(high, low, r, p);
    ScanFindsFirst(q, h);
    if r != h + 2 {
      forall i: nat | h <= i && i + 2 < |high| ensures !NextClears(high, low, false, i) {
        assert !NextClears(Front(high), Front(low), false, i);
      }
    }
    assert Accepts(q, h) <==> Above(high, low, h, h + 1);
    assert Accepts(q, r - 1) <==> Above(high, low, r - 1, r) || r == h + 51;
    assert forall i: nat :: h <= i && i + 2 < |high| && (r == h + 2 ==> i != h) ==> !Accepts(q, i);
  }

  // ---------- the later ones ----------

  lemma {:induction false} BothListed(high: seq<real>, low: seq<real>, p: Pivots)
    requires |high| == |low| > 0 && IndexSafe(p) && Inv(Front(high), Front(low), p) && |p.ph| > 0 && |p.pl| > 0
    ensures var l := LatestPivot(p);
            && (LookForHigh(p) <==> LowIsLatest(p)) && Latest(p) == l && SearchStart(p) == l + 1
            && l + 2 <= |high| - 1 <= l + 51
            && QueryOf(high, low, |high| - 1, p)
               == Query(high, low, LowIsLatest(p), if LowIsLatest(p) then p.ph else p.pl, true, l, |high| - 1 == l + 51)
            && forall i :: i > l ==> i !in p.ph && i !in p.pl
  {
    ShapeOrder(p);
    assert Off(p) == 0 ==> LowFollows(p, 0, 0);
  }

  /** What the search accepts, by the prices. */
  lemma {:induction false} AcceptsIff(q: Query, l: nat, i: nat)
    requires ValidQuery(q) && q.back && q.floor == l && l < i && i + 1 < |q.high| && forall j :: j > l ==> j !in q.xs
    ensures var k := Candidate(q, i);
            && (if q.hi then LastHighest(q.high, l + 1, i, k) else LastLowest(q.low, l + 1, i, k))
            && (!q.late && q.hi ==> (Accepts(q, i) <==> MakesHigh(q.high, q.low, l, i, k)))
            && (!q.late && !q.hi ==> (Accepts(q, i) <==> MakesLow(q.high, q.low, l, i, k)))
            && (q.late && q.hi ==> (Accepts(q, i) <==> FallsAfter(q.high, q.low, i) || i + 2 == |q.high|))
            && (q.late && !q.hi ==> (Accepts(q, i) <==> RisesAfter(q.high, q.low, i) || i + 2 == |q.high|))
  {
    ExtremeIsRightmost(Key(q.high, q.low, q.hi), q.hi, l, i);
  }

  lemma {:induction false} OneHighest(s: seq<real>, a: nat, b: nat, k: nat, m: nat)
    requires LastHighest(s, a, b, k) && LastHighest(s, a, b, m)
    ensures k == m
  {
    assert s[m] <= s[k] && s[k] <= s[m];
  }

  lemma {:induction false} OneLowest(s: seq<real>, a: nat, b: nat, k: nat, m: nat)
    requires LastLowest(s, a, b, k) && LastLowest(s, a, b, m)
    ensures k == m
  {
    assert s[m] >= s[k] && s[k] >= s[m];
  }

  /** What the call makes of the search. */
  lemma {:induction false} StepIs(high: seq<real>, low: seq<real>, p: Pivots, q: Query, l: nat)
    requires |high| == |low| > 0 && IndexSafe(p) && q == QueryOf(high, low, |high| - 1, p)
    requires SearchStart(p) == l + 1
    ensures Step(high, low, |high| - 1, p)
            == match Scan(q, l + 1)
               case None => p
               case Some(i) => if q.hi then Pivots(p.ph + [Candidate(q, i)], p.pl)
                               else Pivots(p.ph, p.pl + [Candidate(q, i)])
  {
  }

  lemma {:induction false} HighFound(q: Query, p: Pivots, l: nat)
    requires ValidQuery(q) && q.back && q.floor == l && q.hi && forall j :: j > l ==> j !in q.xs
    requires l + 2 < |q.high|
    ensures var found := Scan(q, l + 1);
            var p' := if found.None? then p else Pivots(p.ph + [Candidate(q, found.value)], p.pl);
            if q.late then LateHighCall(q.high, q.low, p, p', l) else HighCall(q.high, q.low, p, p', l)
  {
    hide Accepts, Candidate, LastHighest, FallsAfter;
    var found := Scan(q, l + 1);
    ScanFindsFirst(q, l + 1);
    if found.Some? {
      AcceptsIff(q, l, found.value);
    }
    forall i: nat | l < i && i + 1 < |q.high|
      ensures q.late ==> (Accepts(q, i) <==> FallsAfter(q.high, q.low, i) || i + 2 == |q.high|)
    {
      AcceptsIff(q, l, i);
    }
    if q.late {
      assert Accepts(q, |q.high| - 2);
      assert FirstFall(q.high, q.low, l, found.value);
    }
    forall i, k | !q.late && MakesHigh(q.high, q.low, l, i, k) ensures Accepts(q, i) {
      AcceptsIff(q, l, i);
      OneHighest(q.high, l + 1, i, k, Candidate(q, i));
    }
  }

  lemma {:induction false} LowFound(q: Query, p: Pivots, l: nat)
    requires ValidQuery(q) && q.back && q.floor == l && !q.hi && forall j :: j > l ==> j !in q.xs
    requires l + 2 < |q.high|
    ensures var found := Scan(q, l + 1);
            var p' := if found.None? then p else Pivots(p.ph, p.pl + [Candidate(q, found.value)]);
            if q.late then LateLowCall(q.high, q.low, p, p', l) else LowCall(q.high, q.low, p, p', l)
  {
    hide Accepts, Candidate, LastLowest, RisesAfter;
    var found := Scan(q, l + 1);
    ScanFindsFirst(q, l + 1);
    if found.Some? {
      AcceptsIff(q, l, found.value);
    }
    forall i: nat | l < i && i + 1 < |q.high|
      ensures q.late ==> (Accepts(q, i) <==> RisesAfter(q.high, q.low, i) || i + 2 == |q.high|)
    {
      AcceptsIff(q, l, i);
    }
    if q.late {
      assert Accepts(q, |q.high| - 2);
      assert FirstRise(q.high, q.low, l, found.value);
    }
    forall i, k | !q.late && MakesLow(q.high, q.low, l, i, k) ensures Accepts(q, i) {
      AcceptsIff(q, l, i);
      OneLowest(q.low, l + 1, i, k, Candidate(q, i));
    }
  }

  lemma {:induction false} LaterFound(high: seq<real>, low: seq<real>, p: Pivots)
    requires |high| == |low| > 0 && IndexSafe(p) && Inv(Front(high), Front(low), p) && |p.ph| > 0 && |p.pl| > 0
    ensures Call(high, low, p, Step(high, low, |high| - 1, p))
  {
    hide Inv, Scan, Step, QueryOf, LookForHigh, Latest, HighCall, LowCall, LateHighCall, LateLowCall;
    var l := LatestPivot(p);
    var q := QueryOf(high, low, |high| - 1, p);
    BothListed(high, low, p);
    StepIs(high, low, p, q, l);
    if q.hi {
      HighFound(q, p, l);
    } else {
      LowFound(q, p, l);
    }
  }

  /** Every call of every run does exactly this. */
  lemma {:induction false} EveryCall(high: seq<real>, low: seq<real>)
    requires |high| == |low| > 0
    ensures Call(high, low, Run(Front(high), Front(low)), Run(high, low))
  {
    hide Call, Step, Inv;
    var p := Run(Front(high), Front(low));
    RunUnfolds(high, low);
    if |p.ph| == 0 {
      FirstHighFound(high, low, p);
    } else if |p.pl| == 0 {
      FirstLowFound(high, low, p);
    } else {
      LaterFound(high, low, p);
    }
  }

  // ---------- the first pivots of a run ----------

  /** The first high is candle 50 or the first candle followed by one below it, and no later than candle 50. */
  ghost predicate FirstHighIs(high: seq<real>, low: seq<real>, k: nat)
    requires |high| == |low|
  {
    && k <= 50 && k + 1 < |high| && (k == 50 || FallsAfter(high, low, k))
    && forall i: nat :: i < k ==> !FallsAfter(high, low, i)
  }

  /** The first low is the first candle from the first high on that is followed by one above it, or the fiftieth
      after that high. */
  ghost predicate FirstLowIs(high: seq<real>, low: seq<real>, h: nat, k: nat)
    requires |high| == |low|
  {
    && h <= k <= h + 50 && k + 1 < |high| && (k == h + 50 || RisesAfter(high, low, k))
    && forall i: nat :: h <= i < k ==> !RisesAfter(high, low, i)
  }

  /** The first high and the first low of a run, once there. */
  ghost predicate AreFirst(high: seq<real>, low: seq<real>, p: Pivots)
    requires |high| == |low|
  {
    && (|p.ph| == 0 ==> forall i: nat :: !FallsAfter(high, low, i))
    && (|p.ph| > 0 ==> FirstHighIs(high, low, p.ph[0]))
    && (|p.ph| == 1 && |p.pl| == 0 && |high| != p.ph[0] + 2 ==>
          forall i: nat :: p.ph[0] <= i ==> !RisesAfter(high, low, i))
    && (|p.pl| > 0 ==> |p.ph| > 0 && FirstLowIs(high, low, p.ph[0], p.pl[0]))
  }

  /** The first high and the first low of every run are where these predicates say. */
  lemma {:induction false} FirstPivotsAre(high: seq<real>, low: seq<real>)
    requires |high| == |low|
    ensures AreFirst(high, low, Run(high, low))
  {
    hide Run, Call, AreFirst;
    if |high| == 0 {
      EmptyRun(high, low);
    } else {
      var h, l := Front(high), Front(low);
      FirstPivotsAre(h, l);
      EveryCall(high, low);
      FirstStay(high, low);
      StillFirst(high, low, Run(h, l), Run(high, low));
    }
  }

  lemma {:induction false} StillFirst(high: seq<real>, low: seq<real>, p: Pivots, p': Pivots)
    requires |high| == |low| > 0 && AreFirst(Front(high), Front(low), p) && Call(high, low, p, p')
    requires p.ph <= p'.ph && p.pl <= p'.pl && (|p.ph| == 0 ==> p.pl == [] && p'.pl == [])
    requires |p.ph| > 0 && |p.pl| > 0 ==> |p'.ph| + |p'.pl| >= 2
    ensures AreFirst(high, low, p')
  {
    hide HighCall, LowCall, LateHighCall, LateLowCall;
    var h, l := Front(high), Front(low);
    forall i: nat | i + 2 < |high|
      ensures FallsAfter(high, low, i) <==> FallsAfter(h, l, i)
      ensures RisesAfter(high, low, i) <==> RisesAfter(h, l, i)
    {
    }
  }

  /** Once found, the first pivots stay. */
  lemma {:induction false} FirstStay(high: seq<real>, low: seq<real>)
    requires |high| == |low| > 0
    ensures var p, p' := Run(Front(high), Front(low)), Run(high, low);
            && p.ph <= p'.ph && p.pl <= p'.pl && (|p.ph| == 0 ==> p.pl == [] && p'.pl == [])
            && (|p.ph| > 0 && |p.pl| > 0 ==> |p'.ph| + |p'.pl| >= 2)
  {
    hide Found, Inv;
    RunUnfolds(high, low);
  }

  lemma {:induction false} EmptyRun(high: seq<real>, low: seq<real>)
    requires |high| == |low| == 0
    ensures Run(high, low) == Pivots([], []) && AreFirst(high, low, Run(high, low))
  {
  }
}
