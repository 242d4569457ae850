/** Whole runs of scanPivotTrends: the trends it records never overlap. */
module ScanRuns {
  import opened Records
  import opened TrendBreak
  import opened EntryLog
  import opened EntryWatch
  import opened Strategy
  import opened Scan
  import PivotSpec
  import PivotRuns
  import PivotTheorems
  import StrategyRuns

  /** Points come in pairs: the record at the start of a trend, then the record of its end. */
  ghost predicate Ended(points: seq<DataPoint>, j: nat, n: int)
    requires 2 * j + 1 < |points|
  {
    var first, last := points[2 * j], points[2 * j + 1];
    first.actualEntryIndex == last.actualEntryIndex && SL_COOLDOWN_CANDLES < last.actualEntryIndex < last.breakIndex < n
  }

  /** The trend after the j-th starts more than the cooldown after its end. */
  ghost predicate Apart(points: seq<DataPoint>, j: nat)
    requires 2 * j + 2 < |points|
  {
    points[2 * j + 2].actualEntryIndex > points[2 * j + 1].breakIndex + SL_COOLDOWN_CANDLES
  }

  ghost predicate PointsOk(points: seq<DataPoint>, watching: bool, n: int) {
    && |points| % 2 == (if watching then 1 else 0)
    && (forall j: nat :: 2 * j + 1 < |points| ==> Ended(points, j, n))
    && (forall j: nat :: 2 * j + 2 < |points| ==> Apart(points, j))
  }

  /** The record of the trend being watched. */
  ghost predicate WatchedOk(e: DataPoint, n: int) {
    && e.breakIndex == 0 && e.tpPrice == 0.0 && e.startTrailPerc == 0.0
    && SL_COOLDOWN_CANDLES < e.actualEntryIndex < n
  }

  ghost predicate TrendInv(points: seq<DataPoint>, watching: bool, pl: seq<nat>, n: int) {
    && PointsOk(points, watching, n)
    && (watching ==> |points| > 0 && WatchedOk(LastTrade(points), n) && |pl| >= 4)
  }

  // ---------- one candle ----------

  lemma {:induction false} Same(points: seq<DataPoint>, watching: bool, n: int)
    requires PointsOk(points, watching, n)
    ensures PointsOk(points, watching, n + 1)
  {
    forall j: nat | 2 * j + 1 < |points| ensures Ended(points, j, n + 1) {
      assert Ended(points, j, n);
    }
  }

  lemma {:induction false} AppendStart(points: seq<DataPoint>, e: DataPoint, n: int)
    requires PointsOk(points, false, n) && e.actualEntryIndex == n
    requires |points| > 0 ==> n > LastBreak(points) + SL_COOLDOWN_CANDLES
    ensures PointsOk(points + [e], true, n + 1)
  {
    var ps := points + [e];
    forall j: nat | 2 * j + 1 < |ps| ensures Ended(ps, j, n + 1) {
      assert Ended(points, j, n);
    }
    forall j: nat | 2 * j + 2 < |ps| ensures Apart(ps, j) {
      if 2 * j + 2 < |points| {
        assert Apart(points, j);
      }
    }
  }

  lemma {:induction false} AppendEnd(points: seq<DataPoint>, e: DataPoint, n: int)
    requires PointsOk(points, true, n) && e.breakIndex == n
    requires e.actualEntryIndex == LastTrade(points).actualEntryIndex && SL_COOLDOWN_CANDLES < e.actualEntryIndex < n
    ensures PointsOk(points + [e], false, n + 1)
  {
    var ps := points + [e];
    forall j: nat | 2 * j + 1 < |ps| ensures Ended(ps, j, n + 1) {
      if 2 * j + 1 < |points| {
        assert Ended(points, j, n);
      }
    }
    forall j: nat | 2 * j + 2 < |ps| ensures Apart(ps, j) {
      assert Apart(points, j);
    }
  }

  lemma {:induction false} ReplaceStart(points: seq<DataPoint>, e: DataPoint, n: int)
    requires PointsOk(points, true, n) && e.actualEntryIndex == LastTrade(points).actualEntryIndex
    ensures PointsOk(points[|points| - 1 := e], true, n + 1)
  {
    var ps := points[|points| - 1 := e];
    forall j: nat | 2 * j + 1 < |ps| ensures Ended(ps, j, n + 1) {
      assert Ended(points, j, n);
    }
    forall j: nat | 2 * j + 2 < |ps| ensures Apart(ps, j) {
      assert Apart(points, j);
    }
  }

  /** A watched trend either ends on this candle or stays watched with the same entry and deadline. */
  lemma {:induction false} WatchedOutcome(points: seq<DataPoint>, candles: seq<Candle>)
    requires |candles| > 1 && |points| > 0 && WatchedOk(LastTrade(points), |candles| - 1)
    ensures var r, rel, e := Watched(points, candles), |candles| - 1, LastTrade(points);
            if r.1 then
              var last := LastTrade(r.0);
              r.0 == points + [last] && last.breakIndex == rel && last.actualEntryIndex == e.actualEntryIndex
            else
              |r.0| == |points| && r.0 == points[|points| - 1 := e.(multiTPs := LastTrade(r.0).multiTPs)]
    ensures candles[|candles| - 1].close > 0.0 && Expired(LastTrade(points), |candles| - 1) ==>
              Watched(points, candles).1
  {
    var e, rel := LastTrade(points), |candles| - 1;
    var o := Check(e, rel, rel, candles);
    assert points == points[|points| - 1 := e];
    OneCandle(e, candles, rel);
    if o.event.Some? {
      var ev := o.event.value;
      var f := if HasTPs(ev.updated) then ev.updated else o.entry;
      var g := Broken(f, ev.index, ev.action);
      assert o.entry == e.(multiTPs := o.entry.multiTPs) && ev.updated == o.entry && ev.index == rel;
      assert (points + [g])[|points + [g]| - 1 := g] == points + [g];
    }
  }

  /** A check of one candle only. */
  lemma {:induction false} OneCandle(e: DataPoint, candles: seq<Candle>, rel: nat)
    requires rel < |candles| && e.startTrailPerc == 0.0
    ensures From(e, candles, rel, rel) == AtCandle(e, candles, rel)
    ensures AtCandle(e, candles, rel).event.None? ==> AtCandle(e, candles, rel).entry == e
  {
    var o := AtCandle(e, candles, rel);
    assert From(o.entry, candles, rel + 1, rel) == Outcome(None, o.entry);
  }

  lemma {:induction false} TrendKeepsInv(s: ScanState, pl: seq<nat>, candles: seq<Candle>)
    requires WatchSafe(s, pl, candles) && TrendInv(s.points, s.watching, s.pivots.pl, |candles| - 1)
    requires |s.pivots.pl| <= |pl| && forall i :: 0 <= i < |pl| ==> pl[i] + 1 < |candles|
    ensures var r := Trend(s, pl, candles); TrendInv(r.0, r.1, pl, |candles|)
  {
    var rel := |candles| - 1;
    if Blocked(s.points, rel) || |pl| < 4 {
      Same(s.points, s.watching, rel);
    } else if s.watching {
      var r := Watched(s.points, candles);
      WatchedOutcome(s.points, candles);
      if r.1 {
        AppendEnd(s.points, LastTrade(r.0), rel);
      } else {
        ReplaceStart(s.points, LastTrade(r.0), rel);
      }
    } else {
      var pivot := TrendPivot(s.points, pl, candles);
      if pivot.Some? {
        var e := TrendRecord(s.points, pivot.value, candles);
        assert pl[|pl| - 1] + 1 < |candles|;
        NoBreakBelow(s.points, rel);
        AppendStart(s.points, e, rel);
      } else {
        Same(s.points, s.watching, rel);
      }
    }
  }

  /** The last recorded end is never negative. */
  lemma {:induction false} NoBreakBelow(points: seq<DataPoint>, n: int)
    requires PointsOk(points, false, n)
    ensures |points| > 0 ==> LastBreak(points) == points[|points| - 1].breakIndex
    ensures |points| > 0 ==> Ended(points, (|points| - 2) / 2, n)
  {
    if |points| > 0 {
      assert 2 * ((|points| - 2) / 2) + 1 == |points| - 1;
    }
  }

  // ---------- runs ----------

  ghost predicate ScanCalled(candles: seq<Candle>, s: ScanState, s': ScanState) {
    ScanSafe(s, candles) && s' == ScanStep(s, candles)
  }

  ghost predicate ScanMoves(candles: seq<Candle>, ss: seq<ScanState>, i: nat)
    requires i < |candles| && |ss| == |candles| + 1
  {
    ScanCalled(candles[..i + 1], ss[i], ss[i + 1])
  }

  /** ss are the states before and after every candle of a scan. */
  ghost predicate IsScan(candles: seq<Candle>, ss: seq<ScanState>) {
    && |ss| == |candles| + 1 && ss[0] == ScanState(PivotSpec.Pivots([], []), [], false)
    && forall i :: 0 <= i < |candles| ==> ScanMoves(candles, ss, i)
  }

  ghost predicate ScanInv(s: ScanState, candles: seq<Candle>) {
    && s.pivots == PivotRuns.Run(Highs(candles), Lows(candles))
    && TrendInv(s.points, s.watching, s.pivots.pl, |candles|)
  }

  lemma {:induction false} ScanPivotsAdvance(s: ScanState, candles: seq<Candle>)
    requires |candles| > 0 && s.pivots == PivotRuns.Run(Highs(PivotRuns.Front(candles)), Lows(PivotRuns.Front(candles)))
    ensures Scan.NextPivots(s, candles) == PivotRuns.Run(Highs(candles), Lows(candles))
    ensures var pl := Scan.NextPivots(s, candles).pl;
            && |s.pivots.pl| <= |pl| && Priced(Lows(candles), pl) && Searchable(pl, PIVOT_LOWS_TO_ENTER, 0)
            && forall i :: 0 <= i < |pl| ==> pl[i] + 1 < |candles|
  {
    assert Highs(PivotRuns.Front(candles)) == PivotRuns.Front(Highs(candles));
    assert Lows(PivotRuns.Front(candles)) == PivotRuns.Front(Lows(candles));
    PivotRuns.RunUnfolds(Highs(candles), Lows(candles));
    PivotTheorems.LowsAreIncreasing(Highs(candles), Lows(candles));
    StrategyRuns.ListsSuitSearch(candles, PIVOT_LOWS_TO_ENTER);
  }

  /** The watched record before a candle is the last point, and so on: one link of a scan. */
  ghost predicate ScanLink(s: ScanState, s': ScanState, candles: seq<Candle>) {
    && |candles| > 0 && TrendInv(s.points, s.watching, s.pivots.pl, |candles| - 1)
    && |s.pivots.pl| <= |s'.pivots.pl| && (forall i :: 0 <= i < |s'.pivots.pl| ==> s'.pivots.pl[i] + 1 < |candles|)
    && WatchSafe(s, s'.pivots.pl, candles)
    && (s'.points, s'.watching) == Trend(s, s'.pivots.pl, candles)
  }

  lemma {:induction false} TrendCallable(s: ScanState, candles: seq<Candle>, pl: seq<nat>)
    requires |candles| > 0 && TrendInv(s.points, s.watching, s.pivots.pl, |candles| - 1)
    requires Priced(Lows(candles), pl) && Searchable(pl, PIVOT_LOWS_TO_ENTER, 0)
    ensures WatchSafe(s, pl, candles)
  {
  }

  lemma {:induction false} ScanStepLinks(s: ScanState, candles: seq<Candle>)
    requires |candles| > 0 && ScanInv(s, PivotRuns.Front(candles))
    ensures ScanSafe(s, candles) && ScanLink(s, ScanStep(s, candles), candles)
    ensures ScanStep(s, candles).pivots == PivotRuns.Run(Highs(candles), Lows(candles))
  {
    ScanPivotsAdvance(s, candles);
    ScanPartsBefore(s, candles);
    TrendCallable(s, candles, Scan.NextPivots(s, candles).pl);
  }

  lemma {:induction false} ScanPartsBefore(s: ScanState, candles: seq<Candle>)
    requires |candles| > 0 && ScanInv(s, PivotRuns.Front(candles))
    ensures TrendInv(s.points, s.watching, s.pivots.pl, |candles| - 1)
  {
    assert |PivotRuns.Front(candles)| == |candles| - 1;
  }

  lemma {:induction false} ScanKeepsInv(candles: seq<Candle>, ss: seq<ScanState>, n: nat)
    requires IsScan(candles, ss) && n <= |candles|
    ensures ScanInv(ss[n], candles[..n])
    decreases n, 0
  {
    hide ScanMoves, ScanLink, ScanInv;
    if n == 0 {
      FreshScan();
      assert candles[..0] == [];
    } else {
      ScanLinks(candles, ss, n - 1);
    }
  }

  lemma {:induction false} FreshScan()
    ensures ScanInv(ScanState(PivotSpec.Pivots([], []), [], false), [])
  {
  }

  lemma {:induction false} ScanLinks(candles: seq<Candle>, ss: seq<ScanState>, i: nat)
    requires IsScan(candles, ss) && i < |candles|
    ensures ScanLink(ss[i], ss[i + 1], candles[..i + 1]) && ScanInv(ss[i + 1], candles[..i + 1])
    decreases i, 1
  {
    ScanKeepsInv(candles, ss, i);
    var seen := candles[..i + 1];
    assert candles[..i] == PivotRuns.Front(seen);
    assert ScanMoves(candles, ss, i) && ScanCalled(seen, ss[i], ss[i + 1]);
    ScanStepLinks(ss[i], seen);
    TrendKeepsInv(ss[i], ss[i + 1].pivots.pl, seen);
  }

  /** In every scan trends never overlap: each ends strictly after its own start, and each later
      one starts more than the cooldown after the end before it. */
  lemma {:induction false} TrendsNeverOverlap(candles: seq<Candle>, ss: seq<ScanState>, n: nat)
    requires IsScan(candles, ss) && n <= |candles|
    ensures var points := ss[n].points;
            && (|points| % 2 == 1 <==> ss[n].watching)
            && (forall j: nat :: 2 * j + 1 < |points| ==> Ended(points, j, n))
            && (forall j: nat :: 2 * j + 2 < |points| ==> Apart(points, j))
  {
    ScanKeepsInv(candles, ss, n);
    assert |candles[..n]| == n;
  }

  // ---------- how long a trend is watched ----------

  ghost predicate WatchedThrough(ss: seq<ScanState>, a: nat, b: nat)
    requires b < |ss|
  {
    forall i :: a <= i <= b ==> ss[i].watching
  }

  /** What one more candle, the one with index rel, does to a watched trend. */
  ghost predicate WatchedOn(s: ScanState, s': ScanState, rel: nat) {
    && |s.points| > 0
    && (s'.watching ==> && |s'.points| == |s.points|
                        && LastTrade(s'.points) == LastTrade(s.points).(multiTPs := LastTrade(s'.points).multiTPs))
    && (Expired(LastTrade(s.points), rel) ==> !s'.watching)
    && (LastTrade(s.points).slPrice == 0.0 && LastTrade(s.points).maxExitIndex == 0
        && LastTrade(s.points).multiTPs.None? ==>
          s'.watching && s'.points == s.points)
  }

  lemma {:induction false} WatchOneMore(s: ScanState, s': ScanState, candles: seq<Candle>, rel: nat)
    requires ScanLink(s, s', candles) && s.watching && rel + 1 == |candles| && candles[rel].close > 0.0
    ensures WatchedOn(s, s', rel)
  {
    WatchedOutcome(s.points, candles);
    OneCandle(LastTrade(s.points), candles, |candles| - 1);
  }

  lemma {:induction false} WatchedOnRuns(candles: seq<Candle>, ss: seq<ScanState>, i: nat)
    requires IsScan(candles, ss) && i < |candles| && ss[i].watching && candles[i].close > 0.0
    ensures WatchedOn(ss[i], ss[i + 1], i)
  {
    ScanLinks(candles, ss, i);
    var s, s', seen := ss[i], ss[i + 1], candles[..i + 1];
    WatchOneMore(s, s', seen, i);
  }

  /** The record of a trend started on the last of candles at the latest pivot low. */
  ghost predicate TrendStarted(candles: seq<Candle>, s: ScanState, s': ScanState) {
    && |s'.pivots.pl| > 0 && |s'.points| == |s.points| + 1
    && var e, p, k := LastTrade(s'.points), s'.pivots.pl[|s'.pivots.pl| - 1], |candles| - 1;
       && p < k && e.actualEntryIndex == k
       && (if Confirmed(candles, s.points, p)
           then 0 < e.maxExitIndex <= k + MAX_DURATION_CANDLES
           else e == NoEntry.(actualEntryIndex := k))
  }

  lemma {:induction false} LinkStarts(s: ScanState, s': ScanState, candles: seq<Candle>)
    requires ScanLink(s, s', candles) && !s.watching && s'.watching
    ensures TrendStarted(candles, s, s')
  {
    var p := TrendPivot(s.points, s'.pivots.pl, candles).value;
    assert s'.pivots.pl[|s'.pivots.pl| - 1] + 1 < |candles|;
    var a := FirstHigher(candles, p, p + 1);
    if a.Some? {
      assert candles[a.value].high > candles[p].high;
    }
  }

  lemma {:induction false} StartOnRuns(candles: seq<Candle>, ss: seq<ScanState>, k: nat)
    requires IsScan(candles, ss) && k < |candles| && !ss[k].watching && ss[k + 1].watching
    ensures TrendStarted(candles[..k + 1], ss[k], ss[k + 1])
  {
    ScanLinks(candles, ss, k);
    LinkStarts(ss[k], ss[k + 1], candles[..k + 1]);
  }

  lemma {:induction false} TrendRecordStays(candles: seq<Candle>, ss: seq<ScanState>, a: nat, b: nat)
    requires IsScan(candles, ss) && a <= b <= |candles| && WatchedThrough(ss, a, b) && StrategyRuns.Priceable(candles)
    ensures |ss[a].points| > 0 && |ss[b].points| == |ss[a].points|
    ensures LastTrade(ss[b].points) == LastTrade(ss[a].points).(multiTPs := LastTrade(ss[b].points).multiTPs)
  {
    ScanKeepsInv(candles, ss, a);
    if a == b {
    } else {
      TrendRecordStays(candles, ss, a, b - 1);
      WatchedOnRuns(candles, ss, b - 1);
    }
  }

  /** A trend whose pivot was confirmed is watched for at most 300 candles; one whose pivot was
      not is watched for ever. */
  lemma {:induction false} WatchEndsIffConfirmed(candles: seq<Candle>, ss: seq<ScanState>, k: nat)
    requires IsScan(candles, ss) && k + MAX_DURATION_CANDLES < |candles| && StrategyRuns.Priceable(candles)
    requires !ss[k].watching && ss[k + 1].watching
    ensures TrendStarted(candles[..k + 1], ss[k], ss[k + 1])
    ensures LastTrade(ss[k + 1].points).maxExitIndex != 0 ==>
              exists c :: k + 1 < c <= k + MAX_DURATION_CANDLES + 1 && !ss[c].watching
    ensures LastTrade(ss[k + 1].points).maxExitIndex == 0 ==>
              forall c :: k + 1 <= c <= |candles| ==> ss[c].watching
  {
    StartOnRuns(candles, ss, k);
    var last := k + MAX_DURATION_CANDLES;
    if LastTrade(ss[k + 1].points).maxExitIndex == 0 {
      forall c | k + 1 <= c <= |candles| ensures ss[c].watching {
        EmptyTrendStays(candles, ss, k, c);
      }
    } else if WatchedThrough(ss, k + 1, last) {
      TrendRecordStays(candles, ss, k + 1, last);
      WatchedOnRuns(candles, ss, last);
    }
  }

  lemma {:induction false} EmptyTrendStays(candles: seq<Candle>, ss: seq<ScanState>, k: nat, n: nat)
    requires IsScan(candles, ss) && k < n <= |candles| && StrategyRuns.Priceable(candles) && ss[k + 1].watching
    requires |ss[k + 1].points| > 0 && LastTrade(ss[k + 1].points) == NoEntry.(actualEntryIndex := k)
    ensures ss[n].watching && ss[n].points == ss[k + 1].points
  {
    if n == k + 1 {
    } else {
      EmptyTrendStays(candles, ss, k, n - 1);
      WatchedOnRuns(candles, ss, n - 1);
    }
  }
}
