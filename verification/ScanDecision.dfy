/** What scanPivotTrends does on every candle of every scan, in the source's own numbers: when it starts a trend, what
    it records then, and when the trend ends. */
module ScanDecision {
  import opened Records
  import opened TrendBreak
  import opened EntryLog
  import opened EntryWatch
  import opened Strategy
  import opened Scan
  import opened ScanRuns
  import Entries
  import EntryDecision
  import FirstEntry
  import OpenCandles
  import PivotRuns
  import PivotTheorems

  // ---------- when a trend starts ----------

  /** The candle opens after 06:36 and before 07:48, or after 08:24 and before 09:00. */
  predicate TradeTime(c: Candle) {
    396 < c.minute < 468 || 504 < c.minute < 540
  }

  /** The break index of the last record; a trend still watched has none. */
  function BreakOf(points: seq<DataPoint>): int {
    if |points| == 0 then 0 else points[|points| - 1].breakIndex
  }

  /** There are four lows, the last three descend, and the latest lies more than 35 candles after the last break and
      on a candle of the trade windows. */
  ghost predicate StartsTrend(candles: seq<Candle>, pl: seq<nat>, lastBreak: int)
    requires EntryDecision.Listed(candles, pl)
  {
    && |pl| >= 4
    && candles[pl[|pl| - 1]].low < candles[pl[|pl| - 2]].low < candles[pl[|pl| - 3]].low
    && pl[|pl| - 1] > lastBreak + 35
    && TradeTime(candles[pl[|pl| - 1]])
  }

  lemma {:induction false} WindowsAre(minute: nat)
    ensures InWindow(TRADE_WINDOWS, minute) <==> 396 < minute < 468 || 504 < minute < 540
  {
    assert TRADE_WINDOWS[0] == (396, 468) && TRADE_WINDOWS[1] == (504, 540);
  }

  lemma {:induction false} LastThreeDescend(candles: seq<Candle>, pl: seq<nat>)
    requires EntryDecision.Listed(candles, pl) && |pl| >= 4
    ensures Priced(Lows(candles), pl)
    ensures Descends(Lows(candles), pl, 3, |pl| - 1)
       <==> candles[pl[|pl| - 1]].low < candles[pl[|pl| - 2]].low < candles[pl[|pl| - 3]].low
  {
    var low := Lows(candles);
    assert StepsDown(low, pl, |pl| - 1) <==> candles[pl[|pl| - 1]].low < candles[pl[|pl| - 2]].low;
    assert StepsDown(low, pl, |pl| - 2) <==> candles[pl[|pl| - 2]].low < candles[pl[|pl| - 3]].low;
  }

  lemma {:induction false} TrendPivotIff(points: seq<DataPoint>, candles: seq<Candle>, pl: seq<nat>)
    requires EntryDecision.Listed(candles, pl) && |pl| >= 4
    ensures Priced(Lows(candles), pl) && Searchable(pl, PIVOT_LOWS_TO_ENTER, 0)
    ensures TrendPivot(points, pl, candles).Some? <==> StartsTrend(candles, pl, BreakOf(points))
  {
    hide Descends, Watch, Searchable, InWindow;
    var low, last := Lows(candles), pl[|pl| - 1];
    WatchIsExact(low, pl, 3);
    LastThreeDescend(candles, pl);
    WindowsAre(candles[last].minute);
    if Descends(low, pl, 3, |pl| - 1) {
      FirstEntry.LatestQualifies(low, pl, 3);
    } else {
      assert last !in Watch(low, pl, 3, 0);
    }
  }

  // ---------- what is recorded ----------

  /** A trend whose pivot p was confirmed by candle a, recorded on candle k: the stop lies two percent below the close
      of k, the deadline 300 candles after a, and the one target 99 percent above the close of a. */
  function DatedTrend(candles: seq<Candle>, p: nat, a: nat, k: nat): DataPoint
    requires a < |candles| && k < |candles|
  {
    DataPoint(0.98 * candles[k].close, 0.0, Some([MultiTPPoint(1, false, 1.99 * candles[a].close, 100.0, 0.0, 1)]),
              candles[a].close, p, k, a + 300, 0, false, 0.0, 0.0, 0.0, Nothing)
  }

  function EmptyTrend(k: nat): DataPoint {
    DataPoint(0.0, 0.0, None, 0.0, 0, k, 0, 0, false, 0.0, 0.0, 0.0, Nothing)
  }

  ghost predicate IsTrendRecord(candles: seq<Candle>, points: seq<DataPoint>, p: nat, k: nat, e: DataPoint)
    requires p < |candles| && k < |candles|
  {
    if exists a :: Entries.ConfirmedAt(candles, p, a) && !Entries.UsedBefore(points, p)
    then forall a :: Entries.ConfirmedAt(candles, p, a) ==> e == DatedTrend(candles, p, a, k)
    else e == EmptyTrend(k)
  }

  lemma {:induction false} TrendRecordIs(points: seq<DataPoint>, p: nat, candles: seq<Candle>)
    requires p < |candles|
    ensures IsTrendRecord(candles, points, p, |candles| - 1, TrendRecord(points, p, candles))
    ensures OneTarget(TrendRecord(points, p, candles))
  {
    var a, k := FirstHigher(candles, p, p + 1), |candles| - 1;
    assert Duplicate(points, p) <==> Entries.UsedBefore(points, p);
    if a.Some? {
      assert Entries.ConfirmedAt(candles, p, a.value);
      assert PointsOf(TP_MAP, candles[a.value].close)
          == [MultiTPPoint(1, false, 1.99 * candles[a.value].close, 100.0, 0.0, 1)];
    }
    forall b: nat | Entries.ConfirmedAt(candles, p, b) ensures a == Some(b) {
      assert candles[b].high > candles[p].high;
    }
  }

  /** A trend has no target or only the one of the map. */
  predicate OneTarget(e: DataPoint) {
    e.multiTPs.Some? ==> |e.multiTPs.value| == 1 && e.multiTPs.value[0].order == 1
  }

  // ---------- what a candle does to a watched trend ----------

  /** The points after a candle and whether the trend is still watched. It ends at the deadline, on a candle with a
      positive close, or at the stop; a target reached is marked done and ends nothing. */
  function WatchedAfter(points: seq<DataPoint>, c: Candle, k: nat): (seq<DataPoint>, bool)
    requires |points| > 0
  {
    var e := points[|points| - 1];
    if OpenCandles.DeadlineOn(e, k) then
      if c.close > 0.0 then (points + [e.(breakIndex := k, endAction := Max)], false) else (points, true)
    else if OpenCandles.StopReached(e, c) then (points + [e.(breakIndex := k, endAction := SL)], false)
    else if e.multiTPs.None? then (points, true)
    else
      (points[|points| - 1 := e.(multiTPs := Some(OpenCandles.PointsAfter(e.multiTPs.value, c.high)))], true)
  }

  lemma {:induction false} OneTargetRefreshed(p: MultiTPPoint, high: real)
    requires p.order == 1
    ensures Refreshed([p], high) == OpenCandles.PointsAfter([p], high)
    ensures Fired([p], high) == if OpenCandles.PointReached(p, high) then [p.(isDone := true)] else []
  {
    var u := Updates([p], high);
    assert [p][..0] == [];
    assert Updates([], high) == [];
    if p.isDone {
      assert u == [];
    } else {
      assert u == [if Hit(p, high) then p.(isDone := true) else NoPoint];
    }
  }

  lemma {:induction false} WatchedIs(points: seq<DataPoint>, candles: seq<Candle>)
    requires |candles| > 1 && |points| > 0 && WatchedOk(LastTrade(points), |candles| - 1)
    requires OneTarget(points[|points| - 1])
    ensures var r := Watched(points, candles);
            (r.0, !r.1) == WatchedAfter(points, candles[|candles| - 1], |candles| - 1)
    ensures var ps := WatchedAfter(points, candles[|candles| - 1], |candles| - 1).0;
            |ps| > 0 && OneTarget(ps[|ps| - 1])
  {
    hide Refreshed, Fired;
    var e, rel := points[|points| - 1], |candles| - 1;
    OneCandle(e, candles, rel);
    assert points[|points| - 1 := e] == points;
    forall x: DataPoint ensures (points + [x])[|points| := x] == points + [x] {
    }
    if e.multiTPs.Some? {
      assert e.multiTPs.value == [e.multiTPs.value[0]];
      OneTargetRefreshed(e.multiTPs.value[0], candles[rel].high);
      if !OpenCandles.PointReached(e.multiTPs.value[0], candles[rel].high) {
        assert OpenCandles.PointsAfter(e.multiTPs.value, candles[rel].high) == e.multiTPs.value;
        assert e.(multiTPs := Some(e.multiTPs.value)) == e;
      }
    }
  }

  // ---------- every candle of every scan ----------

  /** What candle k does in a scan. */
  ghost predicate ScansCandle(candles: seq<Candle>, s: ScanState, s': ScanState, k: nat)
    requires k + 1 == |candles| && EntryDecision.Listed(candles, s'.pivots.pl)
  {
    var pl := s'.pivots.pl;
    if s.watching then |s.points| > 0 && (s'.points, s'.watching) == WatchedAfter(s.points, candles[k], k)
    else
      && (s'.watching <==> StartsTrend(candles, pl, BreakOf(s.points)))
      && (!s'.watching ==> s'.points == s.points)
      && (s'.watching ==>
            && |s'.points| == |s.points| + 1 && s'.points[..|s.points|] == s.points
            && IsTrendRecord(candles, s.points, pl[|pl| - 1], k, s'.points[|s.points|]))
  }

  lemma {:induction false} LinkScansCandle(s: ScanState, s': ScanState, candles: seq<Candle>)
    requires ScanLink(s, s', candles) && EntryDecision.Listed(candles, s'.pivots.pl)
    requires s.watching ==> |s.points| > 0 && OneTarget(s.points[|s.points| - 1])
    ensures ScansCandle(candles, s, s', |candles| - 1)
    ensures s'.watching ==> |s'.points| > 0 && OneTarget(s'.points[|s'.points| - 1])
  {
    hide Watched, WatchedAfter, StartsTrend, IsTrendRecord, OneTarget, TrendRecord, TrendPivot;
    var pl := s'.pivots.pl;
    if s.watching {
      WatchedIs(s.points, candles);
    } else if |pl| >= 4 {
      TrendPivotIff(s.points, candles, pl);
      StartsLate(candles, pl, BreakOf(s.points));
      assert BreakOf(s.points) == LastBreak(s.points);
      var pivot := TrendPivot(s.points, pl, candles);
      if pivot.Some? {
        TrendRecordIs(s.points, pivot.value, candles);
      }
    } else {
      StartsLate(candles, pl, BreakOf(s.points));
    }
  }

  /** A trend can only start after the candles blocked by the last break. */
  lemma {:induction false} StartsLate(candles: seq<Candle>, pl: seq<nat>, lastBreak: int)
    requires EntryDecision.Listed(candles, pl)
    ensures StartsTrend(candles, pl, lastBreak) ==> |pl| >= 4 && |candles| - 1 > lastBreak + 35
  {
  }

  lemma {:induction false} ScanListed(candles: seq<Candle>, ss: seq<ScanState>, n: nat)
    requires IsScan(candles, ss) && n <= |candles|
    ensures ss[n].pivots == PivotRuns.Run(Highs(candles[..n]), Lows(candles[..n]))
    ensures EntryDecision.Listed(candles[..n], ss[n].pivots.pl)
  {
    hide ScanMoves, PivotRuns.Run, PointsOk;
    ScanKeepsInv(candles, ss, n);
    PivotTheorems.LowsAreIncreasing(Highs(candles[..n]), Lows(candles[..n]));
  }

  lemma {:induction false} ScanStarts(candles: seq<Candle>, ss: seq<ScanState>)
    requires IsScan(candles, ss)
    ensures |ss| == |candles| + 1 && !ss[0].watching
  {
  }

  lemma {:induction false} TargetsNext(candles: seq<Candle>, ss: seq<ScanState>, k: nat)
    requires IsScan(candles, ss) && k < |candles|
    requires ss[k].watching ==> |ss[k].points| > 0 && OneTarget(ss[k].points[|ss[k].points| - 1])
    ensures EntryDecision.Listed(candles[..k + 1], ss[k + 1].pivots.pl)
    ensures ScansCandle(candles[..k + 1], ss[k], ss[k + 1], k)
    ensures ss[k + 1].watching ==> |ss[k + 1].points| > 0 && OneTarget(ss[k + 1].points[|ss[k + 1].points| - 1])
  {
    hide IsScan, ScanLink, ScanInv, EntryDecision.Listed, OneTarget, ScansCandle, PivotRuns.Run, Highs, Lows;
    ScanStarts(candles, ss);
    var seen, s, s' := candles[..k + 1], ss[k], ss[k + 1];
    assert ScanLink(s, s', seen) by { ScanLinks(candles, ss, k); }
    assert EntryDecision.Listed(seen, s'.pivots.pl) by { ScanListed(candles, ss, k + 1); }
    LinkScansCandle(s, s', seen);
  }

  lemma {:induction false} TargetsStay(candles: seq<Candle>, ss: seq<ScanState>, n: nat)
    requires IsScan(candles, ss) && n <= |candles|
    ensures ss[n].watching ==> |ss[n].points| > 0 && OneTarget(ss[n].points[|ss[n].points| - 1])
  {
    hide IsScan, OneTarget;
    ScanStarts(candles, ss);
    if n == 0 {
    } else {
      TargetsStay(candles, ss, n - 1);
      TargetsNext(candles, ss, n - 1);
    }
  }

  /** Every candle of every scan: an unwatched one starts a trend if and only if the pivot lows, the wait and the time
      allow it, a watched one ends it at the deadline or the stop. */
  lemma {:induction false} EveryScanCandle(candles: seq<Candle>, ss: seq<ScanState>, k: nat)
    requires IsScan(candles, ss) && k < |candles|
    ensures EntryDecision.Listed(candles[..k + 1], ss[k + 1].pivots.pl)
    ensures ScansCandle(candles[..k + 1], ss[k], ss[k + 1], k)
  {
    hide IsScan, EntryDecision.Listed, OneTarget, ScansCandle;
    TargetsStay(candles, ss, k);
    TargetsNext(candles, ss, k);
  }

  // ---------- how long a trend is watched ----------

  /** The candle ends a trend with this record. */
  predicate EndsTrend(e: DataPoint, c: Candle, i: nat) {
    if OpenCandles.DeadlineOn(e, i) then c.close > 0.0 else OpenCandles.StopReached(e, c)
  }

  /** A trend started on candle k is still watched before candle n if and only if no candle in between ended it; its
      record changes only in the target reached. */
  lemma {:induction false} WatchedIffNotEnded(candles: seq<Candle>, ss: seq<ScanState>, k: nat, n: nat)
    requires IsScan(candles, ss) && k < n <= |candles| && !ss[k].watching && ss[k + 1].watching
    ensures |ss[k + 1].points| > 0
    ensures WatchedThrough(ss, k + 1, n)
       <==> forall i :: k < i < n ==> !EndsTrend(ss[k + 1].points[|ss[k + 1].points| - 1], candles[i], i)
    ensures WatchedThrough(ss, k + 1, n) ==>
              && |ss[n].points| == |ss[k + 1].points|
              && var e := ss[n].points[|ss[n].points| - 1];
                 e == ss[k + 1].points[|ss[k + 1].points| - 1].(multiTPs := e.multiTPs)
  {
    hide IsScan, EntryDecision.Listed, StartsTrend, IsTrendRecord;
    ScanStarts(candles, ss);
    if n == k + 1 {
      EveryScanCandle(candles, ss, k);
    } else {
      WatchedIffNotEnded(candles, ss, k, n - 1);
      EveryScanCandle(candles, ss, n - 1);
      assert candles[..n][n - 1] == candles[n - 1];
      assert WatchedThrough(ss, k + 1, n) <==> WatchedThrough(ss, k + 1, n - 1) && ss[n].watching;
    }
  }
}
