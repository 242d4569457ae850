/** strat1 (user_strats.go) in its own imperative form: it brings the package globals, the stored
    pivots and trades and the executor up to date. */
module Strat1 {
  import opened Records
  import opened Executor
  import opened TrendBreak
  import opened EntryLog
  import opened EntryWatch
  import opened Strategy
  import opened Countdown
  import PivotSpec
  import FindPivots

  /** The package globals runMLPeriod, firstTime and the five parameters. */
  class Globals {
    var firstTime: bool
    var runMLPeriod: int
    var params: Params

    constructor (s: Schedule)
      ensures View() == s
    {
      firstTime, runMLPeriod, params := s.firstTime, s.runMLPeriod, s.params;
    }

    function View(): Schedule
      reads this
    {
      Schedule(firstTime, runMLPeriod, params)
    }

    method Renew(posLongSize: real, ml: Params)
      modifies this
      ensures View() == Renewed(old(View()), posLongSize, ml)
    {
      if firstTime {
        firstTime := false;
      } else {
        if runMLPeriod == 11 {
          if posLongSize == 0.0 {
            params := ml;
          }
          runMLPeriod := 0;
        } else {
          runMLPeriod := runMLPeriod + 1;
        }
      }
    }
  }

  /** The PivotsStore kept in *storage between candles. */
  class PivotsStore {
    const lists: FindPivots.PivotLists
    var trades: seq<DataPoint>

    constructor ()
      ensures trades == [] && lists.View() == PivotSpec.Pivots([], []) && fresh(lists)
    {
      lists := new FindPivots.PivotLists();
      trades := [];
    }
  }

  /** The actions of the latest earlier candle that has any. */
  method FindLatestActions(actions: map<int, seq<Action>>, relCandleIndex: int) returns (latestActions: seq<Action>)
    ensures latestActions == LatestActions(actions, relCandleIndex - 1)
  {
    latestActions := [];
    var k := 1;
    while k < relCandleIndex
      invariant k >= 1
      invariant LatestActions(actions, relCandleIndex - 1) == LatestActions(actions, relCandleIndex - k)
    {
      var checkIndex := relCandleIndex - k;
      if checkIndex in actions && |actions[checkIndex]| > 0 {
        return actions[checkIndex];
      }
      k := k + 1;
    }
  }

  /** The branch that manages an open position. */
  method ManagePosition(strategy: StrategyExecutor, store: PivotsStore, candles: seq<Candle>)
    requires |candles| > 0 && |store.trades| > 0 && TrailReadable(LastTrade(store.trades), |candles|)
    modifies strategy, store`trades
    ensures (store.trades, strategy.View()) == Managed(old(store.trades), old(strategy.View()), candles)
  {
    var relCandleIndex := |candles| - 1;
    var latest := new EntryData(store.trades[|store.trades| - 1]);
    var found := CheckTrendBreak(latest, relCandleIndex, relCandleIndex, candles);
    if found.None? {
      return;
    }
    var event := found.value;
    var entry := if HasTPs(event.updated) then event.updated else latest.data;
    ghost var b := Book(store.trades, entry, strategy.View());
    if event.index > 0 && event.price > 0.0 && event.action != MultiTP {
      entry := Broken(entry, event.index, event.action);
      store.trades := store.trades + [entry];
      strategy.CloseLong(event.price, 100.0, -1.0, relCandleIndex, event.action);
    } else if event.index > 0 && event.action == MultiTP {
      if |event.points| > 0 && event.points[0].price > 0.0 {
        entry := FirePoints(strategy, store, entry, event.points, relCandleIndex);
      }
    }
    assert Book(store.trades, entry, strategy.View()) == Apply(b, event, relCandleIndex);
    if HasTPs(event.updated) && |store.trades| > 0 {
      store.trades := store.trades[|store.trades| - 1 := entry];
    }
  }

  /** Closes the fired take-profit points one by one. */
  method FirePoints(strategy: StrategyExecutor, store: PivotsStore, latest: DataPoint, points: seq<MultiTPPoint>,
                    relCandleIndex: int)
    returns (entry: DataPoint)
    modifies strategy, store`trades
    ensures Book(store.trades, entry, strategy.View())
         == FireAll(Book(old(store.trades), latest, old(strategy.View())), points, relCandleIndex)
  {
    ghost var b := Book(store.trades, latest, strategy.View());
    entry := latest;
    var n := 0;
    while n < |points|
      invariant 0 <= n <= |points|
      invariant Book(store.trades, entry, strategy.View()) == FireAll(b, points[..n], relCandleIndex)
    {
      var tpPoint := points[n];
      assert points[..n + 1][..n] == points[..n];
      if tpPoint.order == tpPoint.total {
        entry := Broken(entry, relCandleIndex, MultiTP);
        store.trades := store.trades + [entry];
      }
      strategy.CloseLong(tpPoint.price, -1.0, tpPoint.closeSize, relCandleIndex, MultiTP);
      n := n + 1;
    }
    assert points[..n] == points;
  }

  /** Logs the entry, buys and stores the record with its completed take-profit points. */
  method EnterTrade(strategy: StrategyExecutor, store: PivotsStore, entry: nat, candles: seq<Candle>, risk: real,
                    lev: int, params: Params)
    requires entry < |candles| && Buyable(strategy.View(), candles)
    modifies strategy, store`trades
    ensures (store.trades, strategy.View())
         == Entered(old(store.trades), old(strategy.View()), entry, candles, risk, lev, params)
  {
    var relCandleIndex := |candles| - 1;
    var close := candles[relCandleIndex].close;
    var newEntryData := LogEntry(relCandleIndex, entry, candles, store.trades, params.maxDurationCandles,
                                 StopFactor(params.slPerc), -1.0, -1.0, -1.0, Some(params.tpMap));
    newEntryData := newEntryData.(actualEntryIndex := relCandleIndex);
    var points := PointsIn(newEntryData);
    var multiTPs := new MultiTPPoint[|points|](i requires 0 <= i < |points| => points[i]);
    assert multiTPs[..] == points;
    var completedMultiTPs := strategy.Buy(close, newEntryData.slPrice, risk, lev, relCandleIndex, multiTPs, true);
    newEntryData := newEntryData.(multiTPs := Some(completedMultiTPs));
    store.trades := store.trades + [newEntryData];
  }

  /** The branch that looks for an entry while flat. */
  method SearchEntry(strategy: StrategyExecutor, store: PivotsStore, latestActions: seq<Action>, candles: seq<Candle>,
                     low: seq<real>, risk: real, lev: int, params: Params)
    requires |candles| > 0 && low == Lows(candles) && Buyable(strategy.View(), candles)
    requires Priced(low, store.lists.pl) && Searchable(store.lists.pl, params.pivotLowsToEnter, 0)
    requires FirstListed(low, store.lists.pl, params.pivotLowsToEnter)
    modifies strategy, store`trades
    ensures var pivot := EntryPivot(old(store.trades), latestActions, store.lists.pl, candles, params);
            (store.trades, strategy.View())
            == if pivot.Some?
               then Entered(old(store.trades), old(strategy.View()), pivot.value, candles, risk, lev, params)
               else (old(store.trades), old(strategy.View()))
  {
    var relCandleIndex, pl := |candles| - 1, store.lists.pl;
    var possibleEntryIndexes := PivotWatchEntryCheck(low, pl, params.pivotLowsToEnter, 0);
    if |possibleEntryIndexes| > 0 {
      var lastTradeExitIndex := 0;
      if |store.trades| != 0 {
        lastTradeExitIndex := store.trades[|store.trades| - 1].breakIndex;
      }
      var latestPossibleEntry := possibleEntryIndexes[|possibleEntryIndexes| - 1];
      var minTradingIndex;
      if |latestActions| > 0 && latestActions[0].kind == SL {
        minTradingIndex := lastTradeExitIndex + params.slCooldownCandles;
      } else if |latestActions| > 0 && latestActions[0].kind == MultiTP {
        minTradingIndex := lastTradeExitIndex + TP_COOLDOWN_CANDLES;
      } else {
        minTradingIndex := lastTradeExitIndex;
      }
      // both are read for a price difference that no trade zone restricts
      WatchListed(low, pl, params.pivotLowsToEnter, 0);
      assert latestPossibleEntry in possibleEntryIndexes;
      var lastPL := candles[latestPossibleEntry].low;
      var firstPL := candles[pl[|pl| - 1 - (params.pivotLowsToEnter - 1)]].low;
      if latestPossibleEntry > minTradingIndex && latestPossibleEntry == pl[|pl| - 1] {
        EnterTrade(strategy, store, latestPossibleEntry, candles, risk, lev, params);
      }
    }
  }

  function StateOf(globals: Globals, store: PivotsStore, strategy: StrategyExecutor): State
    reads globals, store, store.lists, strategy
  {
    State(globals.View(), store.lists.View(), store.trades, strategy.View())
  }

  /** One call of strat1. ml is what machineLearningModel would return on this candle; labels are
      the empty maps the call starts from. */
  method Strat1(candles: seq<Candle>, risk: real, lev: int, high: seq<real>, low: seq<real>,
                strategy: StrategyExecutor, store: PivotsStore, globals: Globals, labels: FindPivots.Labels, ml: Params)
    returns (number: int)
    requires high == Highs(candles) && low == Lows(candles)
    requires Safe(StateOf(globals, store, strategy), candles, ml) && labels.top == map[]
    modifies strategy, store`trades, store.lists, globals, labels
    ensures var found := PivotSpec.Found(high, low, |candles| - 1, old(store.lists.View()));
            labels.top == if found.Some? && PivotSpec.LookForHigh(old(store.lists.View()))
                          then map[|candles| - 1 - found.value := "H"] else map[]
    ensures StateOf(globals, store, strategy) == Step(old(StateOf(globals, store, strategy)), candles, risk, lev, ml)
    ensures globals.params.pivotLowsToEnter != -1 && number == Returned(store.lists.View(), globals.params)
  {
    ghost var s := StateOf(globals, store, strategy);
    var relCandleIndex := |candles| - 1;
    strategy.orderSlippagePerc := 0.15;
    strategy.exchangeTradeFeePerc := 0.075;
    globals.Renew(strategy.posLongSize, ml);
    var params := globals.params;
    var _ := FindPivots.FindPivots(high, low, relCandleIndex, store.lists, labels);
    Trading(strategy, store, candles, low, risk, lev, params);
    number := Number(store.lists.ph, store.lists.pl, params);
  }

  /** How many pivots are missing from the current round of one high and one low more than are asked for. */
  method Number(ph: seq<nat>, pl: seq<nat>, params: Params) returns (number: int)
    requires params.pivotLowsToEnter != -1
    ensures number == Returned(PivotSpec.Pivots(ph, pl), params)
    ensures params.pivotLowsToEnter >= 0 ==>
              && 0 <= number <= 2 * params.pivotLowsToEnter
              && (number == 2 * params.pivotLowsToEnter <==> |ph| % (params.pivotLowsToEnter + 1) == 0)
    ensures params.pivotLowsToEnter >= 0 ==>
              exists h, l :: Missing(|ph|, params.pivotLowsToEnter, h) && Missing(|pl|, params.pivotLowsToEnter, l)
    ensures params.pivotLowsToEnter >= 0 ==>
              forall h, l | Missing(|ph|, params.pivotLowsToEnter, h) && Missing(|pl|, params.pivotLowsToEnter, l) ::
                number == if h == params.pivotLowsToEnter then 2 * h else h + l
  {
    if params.pivotLowsToEnter >= 0 {
      ghost var p := PivotSpec.Pivots(ph, pl);
      NumberInRange(p, params);
      ghost var highs, lows := NumberIsMissing(p, params);
      forall h, l | Missing(|ph|, params.pivotLowsToEnter, h) && Missing(|pl|, params.pivotLowsToEnter, l)
        ensures h == highs && l == lows
      {
        MissingIs(|ph|, params.pivotLowsToEnter, h);
        MissingIs(|ph|, params.pivotLowsToEnter, highs);
        MissingIs(|pl|, params.pivotLowsToEnter, l);
        MissingIs(|pl|, params.pivotLowsToEnter, lows);
      }
    }
    var n := params.pivotLowsToEnter + 1;
    if |ph| % n == 0 && |pl| % n != 0 {
      return params.pivotLowsToEnter * 2 - |ph| % n - 0;
    }
    number := params.pivotLowsToEnter * 2 - |ph| % n - |pl| % n;
  }

  /** The cooldown gates and the two trading branches. */
  method Trading(strategy: StrategyExecutor, store: PivotsStore, candles: seq<Candle>, low: seq<real>, risk: real,
                 lev: int, params: Params)
    requires low == Lows(candles) && |candles| > 0
    requires TradeSafe(store.trades, strategy.View(), store.lists.pl, candles, params)
    modifies strategy, store`trades
    ensures (store.trades, strategy.View())
         == Trade(old(store.trades), old(strategy.View()), store.lists.pl, candles, risk, lev, params)
  {
    var relCandleIndex := |candles| - 1;
    var latestActions := FindLatestActions(strategy.actions, relCandleIndex);
    if |store.trades| > 0 && |latestActions| > 0
       && latestActions[0].kind == SL
       && relCandleIndex <= store.trades[|store.trades| - 1].breakIndex + params.slCooldownCandles {
      return;
    } else if |store.trades| > 0 && |latestActions| > 0
       && latestActions[0].kind == MultiTP
       && relCandleIndex <= store.trades[|store.trades| - 1].breakIndex + TP_COOLDOWN_CANDLES {
      return;
    } else if |store.lists.pl| >= 4 {
      if strategy.posLongSize > 0.0 {
        ManagePosition(strategy, store, candles);
      } else {
        SearchEntry(strategy, store, latestActions, candles, low, risk, lev, params);
      }
    }
  }
}
