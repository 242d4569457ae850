/** The replay loop of computeBacktest (chartmaster_helpers.go): indicators, strategy and display
    data, candle by candle, with the state of all of them carried along. */
module Backtest {
  import opened Records
  import opened Executor
  import opened TradeLog
  import opened Strategy
  import opened Strat1
  import opened StrategyRuns
  import opened Accounting
  import opened Indicators
  import FindPivots
  import PivotLabels
  import PivotRuns
  import PivotSpec

  function ClosesOf(candles: seq<Candle>): seq<real> {
    seq(|candles|, i requires 0 <= i < |candles| => candles[i].close)
  }

  /** The indicator values shown with each candle so far are those of the candles up to it. */
  ghost predicate Charted(smas: seq<seq<real>>, emas: seq<seq<real>>, closes: seq<real>) {
    && |smas| == |emas| == |closes|
    && forall n :: 0 <= n < |closes| ==> AreSmas(smas[n], closes[..n + 1]) && AreEmas(emas[n], closes[..n + 1])
  }

  /** Rows collected so far depend on the states so far only. */
  lemma {:induction false} CollectedPrefix(ss: seq<State>, more: seq<State>, n: nat)
    requires n < |ss|
    ensures Collected(ss + more, n) == Collected(ss, n)
  {
    hide Kept, Report;
    if n == 0 {
    } else {
      CollectedPrefix(ss, more, n - 1);
    }
  }

  ghost predicate PivotsBefore(p: PivotSpec.Pivots, high: seq<real>, low: seq<real>) {
    && |high| == |low| > 0
    && PivotSpec.IndexSafe(p)
    && p == PivotRuns.Run(PivotRuns.Front(high), PivotRuns.Front(low))
  }

  /** The labels of one more candle go on top of those so far. */
  lemma {:induction false} TopsNext(high: seq<real>, low: seq<real>, p: PivotSpec.Pivots)
    requires PivotsBefore(p, high, low)
    ensures var labels := PivotLabels.NewTop(high, low, |high| - 1, p);
            && PivotLabels.BarsBack(labels)
            && PivotLabels.RunTops(high, low)
               == PivotLabels.Apply(PivotLabels.RunTops(PivotRuns.Front(high), PivotRuns.Front(low)) + [""], labels)
  {
    PivotLabels.RunTopsUnfolds(high, low);
    PivotLabels.NewTopIsBarsBack(high, low, p);
  }

  /** The strategy's part of one candle, with the label maps it starts from. */
  method CallStrategy(u: Setup, ins: seq<Input>, i: nat, candles: seq<Candle>, high: seq<real>, low: seq<real>,
                      strategy: StrategyExecutor, store: PivotsStore, globals: Globals)
    returns (labels: FindPivots.Labels)
    requires i < |ins| && candles == CandlesOf(ins[..i + 1]) && high == Highs(candles) && low == Lows(candles)
    requires Safe(StateOf(globals, store, strategy), candles, ins[i].ml)
    modifies strategy, store`trades, store.lists, globals
    ensures Called(u, ins, i, old(StateOf(globals, store, strategy)), StateOf(globals, store, strategy))
    ensures fresh(labels) && labels.top == PivotLabels.NewTop(high, low, i, old(store.lists.View()))
  {
    labels := new FindPivots.Labels();
    var _ := Strat1.Strat1(candles, u.risk, u.lev, high, low, strategy, store, globals, labels, ins[i].ml);
  }

  /** The display part of one candle. */
  method SaveDisplay(actions: map<int, seq<Action>>, i: nat, high: seq<real>, low: seq<real>, ghost p: PivotSpec.Pivots,
                     labels: map<int, string>, display: PivotLabels.Display)
    returns (rows: seq<Row>)
    requires i + 1 == |high| && PivotsBefore(p, high, low)
    requires labels == PivotLabels.NewTop(high, low, i, p)
    requires display.tops == PivotLabels.RunTops(PivotRuns.Front(high), PivotRuns.Front(low))
    modifies display
    ensures rows == Kept(Report(actions, i))
    ensures display.tops == PivotLabels.RunTops(high, low)
  {
    var simTradeData := SaveSimTrades(actions, i);
    rows := Kept(simTradeData);
    TopsNext(high, low, p);
    display.SaveTopLabels(labels);
  }

  lemma {:induction false} CollectedGrows(ss: seq<State>, i: nat, s': State)
    requires |ss| == i + 1
    ensures Collected(ss + [s'], i + 1) == Collected(ss, i) + Kept(Report(s'.account.actions, i))
  {
    CollectedPrefix(ss, [s'], i);
  }

  lemma {:induction false} RunPivots(u: Setup, ins: seq<Input>, i: nat, ss: seq<State>, high: seq<real>, low: seq<real>)
    requires i < |ins| && IsRun(u, ins[..i], ss)
    requires high == Highs(CandlesOf(ins[..i + 1])) && low == Lows(CandlesOf(ins[..i + 1]))
    ensures PivotsBefore(ss[i].pivots, high, low)
  {
    hide Moves, PivotRuns.Run;
    RunKeepsInv(u, ins[..i], ss, i);
    var candles := CandlesOf(ins[..i + 1]);
    assert CandlesOf(ins[..i][..i]) == PivotRuns.Front(candles);
    assert Highs(PivotRuns.Front(candles)) == PivotRuns.Front(high);
    assert Lows(PivotRuns.Front(candles)) == PivotRuns.Front(low);
  }

  /** The strategy's part, as one more step of the run. */
  method ReplayStrategy(u: Setup, ins: seq<Input>, i: nat, candles: seq<Candle>, high: seq<real>, low: seq<real>,
                        strategy: StrategyExecutor, store: PivotsStore, globals: Globals, ghost ss: seq<State>)
    returns (labels: FindPivots.Labels, ghost s': State)
    requires GoodInputs(ins) && AsksLows(u, ins) && i < |ins| && IsRun(u, ins[..i], ss)
    requires PivotSpec.IndexSafe(ss[i].pivots)
    requires StateOf(globals, store, strategy) == ss[i]
    requires candles == CandlesOf(ins[..i + 1]) && high == Highs(candles) && low == Lows(candles)
    modifies strategy, store`trades, store.lists, globals
    ensures s' == StateOf(globals, store, strategy) && IsRun(u, ins[..i + 1], ss + [s'])
    ensures fresh(labels) && labels.top == PivotLabels.NewTop(high, low, i, ss[i].pivots)
  {
    RunIsSafe(u, ins, i, ss);
    labels := CallStrategy(u, ins, i, candles, high, low, strategy, store, globals);
    s' := StateOf(globals, store, strategy);
    RunGrows(u, ins, i, ss, s');
  }

  /** One candle: the strategy, then the display. */
  method ReplayCandle(u: Setup, ins: seq<Input>, i: nat, candles: seq<Candle>, high: seq<real>, low: seq<real>,
                      strategy: StrategyExecutor, store: PivotsStore, globals: Globals, display: PivotLabels.Display,
                      ghost ss: seq<State>)
    returns (rows: seq<Row>, ghost s': State)
    requires GoodInputs(ins) && AsksLows(u, ins) && i < |ins| && IsRun(u, ins[..i], ss)
    requires StateOf(globals, store, strategy) == ss[i]
    requires candles == CandlesOf(ins[..i + 1]) && high == Highs(candles) && low == Lows(candles)
    requires display.tops == PivotLabels.RunTops(PivotRuns.Front(high), PivotRuns.Front(low))
    modifies strategy, store`trades, store.lists, globals, display
    ensures s' == StateOf(globals, store, strategy) && IsRun(u, ins[..i + 1], ss + [s'])
    ensures Collected(ss + [s'], i + 1) == Collected(ss, i) + rows
    ensures display.tops == PivotLabels.RunTops(high, low)
  {
    RunPivots(u, ins, i, ss, high, low);
    var labels;
    labels, s' := ReplayStrategy(u, ins, i, candles, high, low, strategy, store, globals, ss);
    CollectedGrows(ss, i, s');
    rows := SaveDisplay(strategy.actions, i, high, low, ss[i].pivots, labels.top, display);
  }

  /** The arrays computeBacktest grows along with its candles. */
  ghost predicate Arrays(candles: seq<Candle>, high: seq<real>, low: seq<real>, close: seq<real>) {
    high == Highs(candles) && low == Lows(candles) && close == ClosesOf(candles)
  }

  lemma {:induction false} ArraysGrow(candles: seq<Candle>, high: seq<real>, low: seq<real>, close: seq<real>,
                                      c: Candle)
    requires Arrays(candles, high, low, close)
    ensures Arrays(candles + [c], high + [c.high], low + [c.low], close + [c.close])
  {
  }

  lemma {:induction false} ChartedNext(smas: seq<seq<real>>, emas: seq<seq<real>>, closes: seq<real>, sma: seq<real>,
                                       ema: seq<real>)
    requires |closes| > 0 && Charted(smas, emas, closes[..|closes| - 1]) && AreSmas(sma, closes) && AreEmas(ema, closes)
    ensures Charted(smas + [sma], emas + [ema], closes)
  {
    var front := closes[..|closes| - 1];
    forall n | 0 <= n < |closes|
      ensures AreSmas((smas + [sma])[n], closes[..n + 1]) && AreEmas((emas + [ema])[n], closes[..n + 1])
    {
      if n < |front| {
        assert front[..n + 1] == closes[..n + 1];
      } else {
        assert closes[..n + 1] == closes;
      }
    }
  }

  /** The indicators of one candle. */
  method ChartCandle(smas0: seq<seq<real>>, emas0: seq<seq<real>>, closes: seq<real>, relIndex: nat, previous: Emas)
    returns (smas: seq<seq<real>>, emas: seq<seq<real>>)
    requires relIndex == |closes| - 1 && Charted(smas0, emas0, closes[..relIndex])
    requires previous.Ready(relIndex, closes[..relIndex])
    modifies previous
    ensures Charted(smas, emas, closes) && previous.Ready(relIndex + 1, closes)
  {
    assert closes[..relIndex][..relIndex] == closes[..relIndex];
    var newSmas := CalcSmas(closes);
    var newEmas := previous.CalcEmas(closes, relIndex);
    ChartedNext(smas0, emas0, closes, newSmas, newEmas);
    smas, emas := smas0 + [newSmas], emas0 + [newEmas];
  }

  /** What holds between two candles. */
  ghost predicate Running(u: Setup, ins: seq<Input>, i: nat, ss: seq<State>, rows: seq<Row>, candles: seq<Candle>,
                          strategy: StrategyExecutor, store: PivotsStore, globals: Globals,
                          display: PivotLabels.Display)
    reads strategy, store, store.lists, globals, display
  {
    && GoodInputs(ins) && AsksLows(u, ins) && i <= |ins| && |ss| == i + 1 && IsRun(u, ins[..i], ss)
    && candles == CandlesOf(ins[..i])
    && StateOf(globals, store, strategy) == ss[i]
    && rows == Collected(ss, i)
    && display.tops == PivotLabels.RunTops(Highs(candles), Lows(candles))
  }

  /** The loop body without the indicators. */
  method ReplayNext(u: Setup, ins: seq<Input>, i: nat, rows0: seq<Row>, ghost candles0: seq<Candle>,
                    candles: seq<Candle>,
                    high: seq<real>, low: seq<real>, strategy: StrategyExecutor, store: PivotsStore, globals: Globals,
                    display: PivotLabels.Display, ghost ss0: seq<State>)
    returns (rows: seq<Row>, ghost ss: seq<State>)
    requires Running(u, ins, i, ss0, rows0, candles0, strategy, store, globals, display) && i < |ins|
    requires candles == candles0 + [ins[i].candle] && high == Highs(candles) && low == Lows(candles)
    modifies strategy, store`trades, store.lists, globals, display
    ensures Running(u, ins, i + 1, ss, rows, candles, strategy, store, globals, display)
  {
    hide IsRun, Collected, PivotLabels.RunTops, GoodInputs, AsksLows;
    assert candles == CandlesOf(ins[..i + 1]);
    assert PivotRuns.Front(high) == Highs(candles0) && PivotRuns.Front(low) == Lows(candles0);
    var kept; ghost var s';
    kept, s' := ReplayCandle(u, ins, i, candles, high, low, strategy, store, globals, display, ss0);
    rows, ss := rows0 + kept, ss0 + [s'];
  }

  lemma {:induction false} InputsGrow(u: Setup, ins: seq<Input>, input: Input)
    requires GoodInputs(ins) && AsksLows(u, ins)
    requires input.candle.close > 0.0 && GoodParams(input.ml)
    requires Due(u.globals, |ins|) ==> input.ml.pivotLowsToEnter >= 1
    ensures GoodInputs(ins + [input]) && AsksLows(u, ins + [input]) && (ins + [input])[..|ins|] == ins
  {
  }

  /** The objects the replay loop calls on, and what it grows along with the candles. */
  class Session {
    const strategySim: StrategyExecutor
    const store: PivotsStore
    const globals: Globals
    const previous: Emas
    const display: PivotLabels.Display
    var allCandles: seq<Candle>
    var allHighs: seq<real>
    var allLows: seq<real>
    var allCloses: seq<real>
    var smas: seq<seq<real>>
    var emas: seq<seq<real>>
    var rows: seq<Row>

    /** What earlier backtests left in the globals is arbitrary, except that the list of displayed candles
        starts out empty. */
    constructor (u: Setup, globals: Globals, previous: Emas, display: PivotLabels.Display)
      requires GoodStart(u.globals) && StartAsksLows(u.globals) && globals.View() == u.globals && display.tops == []
      ensures this.globals == globals && this.previous == previous && this.display == display
      ensures fresh(strategySim) && fresh(store) && fresh(store.lists)
      ensures Follows(u, [], [Initial(u)])
    {
      this.globals, this.previous, this.display := globals, previous, display;
      strategySim := new StrategyExecutor(u.equity);
      store := new PivotsStore();
      allCandles, allHighs, allLows, allCloses, smas, emas, rows := [], [], [], [], [], [], [];
    }

    /** Everything is as the run ss over ins says. */
    ghost predicate Follows(u: Setup, ins: seq<Input>, ss: seq<State>)
      reads this, strategySim, store, store.lists, globals, previous, display
    {
      && Running(u, ins, |ins|, ss, rows, allCandles, strategySim, store, globals, display)
      && Arrays(allCandles, allHighs, allLows, allCloses)
      && Charted(smas, emas, allCloses) && previous.Ready(|ins|, allCloses)
    }

    /** The body of the loop over the candles: one more candle. */
    method Next(u: Setup, ins: seq<Input>, input: Input, ghost ss0: seq<State>) returns (ghost ss: seq<State>)
      requires Follows(u, ins, ss0)
      requires input.candle.close > 0.0 && GoodParams(input.ml)
      requires Due(u.globals, |ins|) ==> input.ml.pivotLowsToEnter >= 1
      modifies this, strategySim, store`trades, store.lists, globals, previous, display
      ensures Follows(u, ins + [input], ss)
    {
      hide IsRun, GoodInputs, AsksLows, Collected, PivotLabels.RunTops, AreSmas, AreEmas, Charted;
      var candle, relIndex := input.candle, |ins|;
      ghost var candles0, closes0 := allCandles, allCloses;
      InputsGrow(u, ins, input);
      assert ins[..|ins|] == ins;
      ArraysGrow(allCandles, allHighs, allLows, allCloses, candle);
      allCandles, allCloses := allCandles + [candle], allCloses + [candle.close];
      allHighs, allLows := allHighs + [candle.high], allLows + [candle.low];
      assert allCloses[..relIndex] == closes0;
      smas, emas := ChartCandle(smas, emas, allCloses, relIndex, previous);
      rows, ss := ReplayNext(u, ins + [input], relIndex, rows, candles0, allCandles, allHighs, allLows,
                             strategySim, store, globals, display, ss0);
    }

    /** The rows and labels are those of the run, and while the run is flat the rows account for its equity. */
    lemma {:induction false} Conclude(u: Setup, ins: seq<Input>, ss: seq<State>)
      requires Follows(u, ins, ss)
      ensures IsRun(u, ins, ss) && strategySim.View() == ss[|ins|].account
      ensures rows == Collected(ss, |ins|) && Charted(smas, emas, ClosesOf(CandlesOf(ins)))
      ensures strategySim.posLongSize == 0.0 ==> strategySim.totalEquity - u.equity == NetOf(rows)
      ensures |display.tops| == |ins| && PivotLabels.Marks(display.tops, ss[|ins|].pivots.ph)
    {
      hide Moves, Collected, Charted, PivotLabels.RunTops, NetOf;
      assert ins[..|ins|] == ins;
      FlatIfClosed(u, ins, ss);
      TopsMarkPivots(u, ins, ss);
    }
  }

  lemma {:induction false} TopsMarkPivots(u: Setup, ins: seq<Input>, ss: seq<State>)
    requires IsRun(u, ins, ss)
    ensures var tops := PivotLabels.RunTops(Highs(CandlesOf(ins)), Lows(CandlesOf(ins)));
            |tops| == |ins| && PivotLabels.Marks(tops, ss[|ins|].pivots.ph)
  {
    RunKeepsInv(u, ins, ss, |ins|);
    assert ins[..|ins|] == ins;
    PivotLabels.LabelsMarkThePivotHighs(Highs(CandlesOf(ins)), Lows(CandlesOf(ins)));
  }

  lemma {:induction false} FlatIfClosed(u: Setup, ins: seq<Input>, ss: seq<State>)
    requires IsRun(u, ins, ss)
    ensures ss[|ins|].account.posLongSize == 0.0 ==>
              ss[|ins|].account.totalEquity - u.equity == NetOf(Collected(ss, |ins|))
  {
    if ss[|ins|].account.posLongSize == 0.0 {
      FlatEquityIsTheLog(u, ins, ss, |ins|);
    }
  }
}
