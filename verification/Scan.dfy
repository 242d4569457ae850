/** scanPivotTrends (user_scans.go): watches one trend at a time and records it when it ends. */
module Scan {
  import opened Records
  import opened TrendBreak
  import opened EntryLog
  import opened EntryWatch
  import opened Strategy
  import PivotSpec
  import FindPivots

  const PIVOT_LOWS_TO_ENTER := 3
  const MAX_DURATION_CANDLES := 300
  const SL_PERC := 2.0
  const SL_COOLDOWN_CANDLES := 35
  const TP_MAP := [Target(99.0, 100.0)]

  /** Trade windows in minutes of the day, both ends excluded: 06:36 to 07:48 and 08:24 to 09:00. */
  const TRADE_WINDOWS: seq<(nat, nat)> := [(6 * 60 + 36, 7 * 60 + 48), (8 * 60 + 24, 9 * 60)]

  /** PivotTrendScanStore. */
  datatype ScanState = ScanState(pivots: PivotSpec.Pivots, points: seq<DataPoint>, watching: bool)

  function LastBreak(points: seq<DataPoint>): int {
    if |points| == 0 then 0 else points[|points| - 1].breakIndex
  }

  predicate Blocked(points: seq<DataPoint>, rel: int) {
    |points| > 0 && rel <= LastBreak(points) + SL_COOLDOWN_CANDLES
  }

  predicate InWindow(windows: seq<(nat, nat)>, minute: nat) {
    exists i :: 0 <= i < |windows| && windows[i].0 < minute < windows[i].1
  }

  /** The watched trend on one candle: the points afterwards and whether it ended. */
  function Watched(points: seq<DataPoint>, candles: seq<Candle>): (seq<DataPoint>, bool)
    requires |candles| > 0 && |points| > 0 && TrailReadable(LastTrade(points), |candles|)
  {
    var rel := |candles| - 1;
    var o := Check(LastTrade(points), rel, rel, candles);
    match o.event
    case None => (points, false)
    case Some(ev) =>
      var e := if HasTPs(ev.updated) then ev.updated else o.entry;
      var ends := ev.index > 0 && ev.price > 0.0 && ev.action != MultiTP;
      var e' := if ends then Broken(e, ev.index, ev.action) else e;
      var ps := if ends then points + [e'] else points;
      (if HasTPs(ev.updated) && |ps| > 0 then ps[|ps| - 1 := e'] else ps, ends)
  }

  /** The pivot low to start a trend on. */
  function TrendPivot(points: seq<DataPoint>, pl: seq<nat>, candles: seq<Candle>): (r: PivotSpec.Option<nat>)
    requires Priced(Lows(candles), pl) && Searchable(pl, PIVOT_LOWS_TO_ENTER, 0)
    ensures r.Some? ==>
              |pl| > 0 && r.value == pl[|pl| - 1] < |candles| && r.value > LastBreak(points) + SL_COOLDOWN_CANDLES
  {
    var possible := Watch(Lows(candles), pl, PIVOT_LOWS_TO_ENTER, 0);
    if |possible| == 0 || |pl| == 0 then PivotSpec.None
    else
      var entry := possible[|possible| - 1];
      if entry > LastBreak(points) + SL_COOLDOWN_CANDLES && entry == pl[|pl| - 1]
         && InWindow(TRADE_WINDOWS, candles[pl[|pl| - 1]].minute)
      then PivotSpec.Some(entry) else PivotSpec.None
  }

  function TrendRecord(points: seq<DataPoint>, entry: nat, candles: seq<Candle>): DataPoint
    requires entry < |candles|
  {
    Logged(|candles| - 1, entry, candles, points, MAX_DURATION_CANDLES, StopFactor(SL_PERC), -1.0, -1.0, -1.0,
        Some(TP_MAP))
      .(actualEntryIndex := |candles| - 1)
  }

  predicate WatchSafe(s: ScanState, pl: seq<nat>, candles: seq<Candle>) {
    && |candles| > 0
    && (s.watching ==> |s.points| > 0 && TrailReadable(LastTrade(s.points), |candles|))
    && Priced(Lows(candles), pl) && Searchable(pl, PIVOT_LOWS_TO_ENTER, 0)
  }

  /** The trend part of one candle: points and whether a trend is watched afterwards. */
  function Trend(s: ScanState, pl: seq<nat>, candles: seq<Candle>): (seq<DataPoint>, bool)
    requires WatchSafe(s, pl, candles)
  {
    if Blocked(s.points, |candles| - 1) || |pl| < 4 then (s.points, s.watching)
    else if s.watching then
      var r := Watched(s.points, candles);
      (r.0, !r.1)
    else
      match TrendPivot(s.points, pl, candles)
      case None => (s.points, false)
      case Some(entry) => (s.points + [TrendRecord(s.points, entry, candles)], true)
  }

  function NextPivots(s: ScanState, candles: seq<Candle>): PivotSpec.Pivots
    requires |candles| > 0 && PivotSpec.IndexSafe(s.pivots)
  {
    PivotSpec.Step(Highs(candles), Lows(candles), |candles| - 1, s.pivots)
  }

  predicate ScanSafe(s: ScanState, candles: seq<Candle>) {
    |candles| > 0 && PivotSpec.IndexSafe(s.pivots) && WatchSafe(s, NextPivots(s, candles).pl, candles)
  }

  /** One call of scanPivotTrends. */
  function ScanStep(s: ScanState, candles: seq<Candle>): ScanState
    requires ScanSafe(s, candles)
  {
    var p := NextPivots(s, candles);
    var r := Trend(s, p.pl, candles);
    ScanState(p, r.0, r.1)
  }

  // ---------- the imperative form ----------

  class ScanStore {
    const lists: FindPivots.PivotLists
    var points: seq<DataPoint>
    var watching: bool

    constructor ()
      ensures View() == ScanState(PivotSpec.Pivots([], []), [], false) && fresh(lists)
    {
      lists := new FindPivots.PivotLists();
      points, watching := [], false;
    }

    function View(): ScanState
      reads this, lists
    {
      ScanState(lists.View(), points, watching)
    }
  }

  method TimeOK(windows: seq<(nat, nat)>, minute: nat) returns (timeOK: bool)
    ensures timeOK <==> |windows| == 0 || InWindow(windows, minute)
  {
    timeOK := |windows| <= 0;
    var n := 0;
    while n < |windows|
      invariant 0 <= n <= |windows|
      invariant timeOK <==> |windows| == 0
      invariant forall k :: 0 <= k < n ==> !(windows[k].0 < minute < windows[k].1)
    {
      var afterS, beforeE := minute > windows[n].0, minute < windows[n].1;
      timeOK := afterS && beforeE;
      if timeOK {
        return;
      }
      n := n + 1;
    }
  }

  method WatchTrend(store: ScanStore, candles: seq<Candle>) returns (retData: DataPoint)
    requires |candles| > 0 && |store.points| > 0 && TrailReadable(LastTrade(store.points), |candles|) && store.watching
    modifies store`points, store`watching
    ensures (store.points, !store.watching) == Watched(old(store.points), candles)
    ensures !store.watching ==> |store.points| > 0 && retData == LastTrade(store.points)
  {
    retData := NoEntry;
    var relCandleIndex := |candles| - 1;
    var latest := new EntryData(store.points[|store.points| - 1]);
    var found := CheckTrendBreak(latest, relCandleIndex, relCandleIndex, candles);
    if found.None? {
      return;
    }
    var event := found.value;
    var entry := if HasTPs(event.updated) then event.updated else latest.data;
    if event.index > 0 && event.price > 0.0 && event.action != MultiTP {
      entry := Broken(entry, event.index, event.action);
      store.points := store.points + [entry];
      store.watching := false;
      retData := entry;
    }
    if HasTPs(event.updated) && |store.points| > 0 {
      store.points := store.points[|store.points| - 1 := entry];
    }
  }

  method SearchTrend(store: ScanStore, candles: seq<Candle>, low: seq<real>)
    requires |candles| > 0 && low == Lows(candles) && !store.watching
    requires Priced(low, store.lists.pl) && Searchable(store.lists.pl, PIVOT_LOWS_TO_ENTER, 0)
    modifies store`points, store`watching
    ensures var pivot := TrendPivot(old(store.points), store.lists.pl, candles);
            (store.points, store.watching)
            == if pivot.Some? then (old(store.points) + [TrendRecord(old(store.points), pivot.value, candles)], true)
               else (old(store.points), false)
  {
    var relCandleIndex, pl := |candles| - 1, store.lists.pl;
    var possibleEntryIndexes := PivotWatchEntryCheck(low, pl, PIVOT_LOWS_TO_ENTER, 0);
    if |possibleEntryIndexes| > 0 {
      var lastTradeExitIndex := 0;
      if |store.points| != 0 {
        lastTradeExitIndex := store.points[|store.points| - 1].breakIndex;
      }
      var latestPossibleEntry := possibleEntryIndexes[|possibleEntryIndexes| - 1];
      var minTradingIndex := lastTradeExitIndex + SL_COOLDOWN_CANDLES;
      var firstPLIndex := pl[|pl| - 1 - (PIVOT_LOWS_TO_ENTER - 1)];
      if latestPossibleEntry > minTradingIndex && latestPossibleEntry == pl[|pl| - 1] {
        var timeOK := TimeOK(TRADE_WINDOWS, candles[latestPossibleEntry].minute);
        if timeOK {
          var newEntryData := LogEntry(relCandleIndex, latestPossibleEntry, candles, store.points, MAX_DURATION_CANDLES,
                                       StopFactor(SL_PERC), -1.0, -1.0, -1.0, Some(TP_MAP));
          newEntryData := newEntryData.(actualEntryIndex := relCandleIndex);
          store.points := store.points + [newEntryData];
          store.watching := true;
        }
      }
    }
  }

  method ScanPivotTrends(candles: seq<Candle>, high: seq<real>, low: seq<real>, store: ScanStore,
                         labels: FindPivots.Labels)
    returns (retData: DataPoint)
    requires high == Highs(candles) && low == Lows(candles) && ScanSafe(store.View(), candles)
    modifies store`points, store`watching, store.lists, labels
    ensures store.View() == ScanStep(old(store.View()), candles)
    ensures old(store.watching) && !store.watching ==> |store.points| > 0 && retData == LastTrade(store.points)
  {
    retData := NoEntry;
    var relCandleIndex := |candles| - 1;
    ghost var s := store.View();
    var _ := FindPivots.FindPivots(high, low, relCandleIndex, store.lists, labels);
    if |store.points| > 0 && relCandleIndex <= store.points[|store.points| - 1].breakIndex + SL_COOLDOWN_CANDLES {
      return;
    } else if |store.lists.pl| >= 4 {
      if store.watching {
        retData := WatchTrend(store, candles);
      } else {
        SearchTrend(store, candles, low);
      }
    }
  }
}
