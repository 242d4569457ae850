/** Whole runs of strat1: the invariant every candle keeps. */
module StrategyRuns {
  import opened Records
  import opened Executor
  import opened TrendBreak
  import opened EntryLog
  import opened EntryWatch
  import opened Strategy
  import opened Ladder
  import opened OpenTrade
  import PivotSpec
  import PivotRuns
  import PivotTheorems

  /** One candle and what the machine-learning call would return on it. */
  datatype Input = Input(candle: Candle, ml: Params)

  function CandlesOf(ins: seq<Input>): seq<Candle> {
    seq(|ins|, i requires 0 <= i < |ins| => ins[i].candle)
  }

  /** The counts, durations and percentages are arbitrary. */
  ghost predicate GoodParams(p: Params) {
    GoodTargets(p.tpMap)
  }

  /** Closing prices are positive and the take-profit maps usable; everything else is arbitrary. */
  ghost predicate GoodInputs(ins: seq<Input>) {
    forall i :: 0 <= i < |ins| ==> ins[i].candle.close > 0.0 && GoodParams(ins[i].ml)
  }

  /** The globals as the process starts, or as an earlier run left them. */
  ghost predicate GoodStart(g: Schedule) {
    GoodParams(g.params)
  }

  // ---------- the invariant ----------

  /** A candle holds one entry or only exits. */
  ghost predicate GoodActs(acts: seq<Action>) {
    |acts| > 0 && ((|acts| == 1 && acts[0].kind == Enter) || AllExits(acts))
  }

  ghost predicate LogOk(actions: map<int, seq<Action>>, n: nat) {
    forall c :: c in actions ==> 1 <= c < n && GoodActs(actions[c])
  }

  /** What an open position needs to be managed on candle n. */
  ghost predicate MayManage(trades: seq<DataPoint>, x: Account, pl: seq<nat>, n: int) {
    && |pl| >= 4 && |trades| > 0
    && OpenEntry(LastTrade(trades), x.posLongSize)
    && var latest := LatestActions(x.actions, n - 1);
       |latest| > 0 && (latest[0].kind == Enter || latest[0].kind == MultiTP)
  }

  ghost predicate MoneyOk(s: State, n: nat) {
    && s.account.posLongSize >= 0.0
    && (s.account.posLongSize == 0.0 ==> s.account.totalEquity == s.account.availableEquity)
    && (s.account.posLongSize > 0.0 ==> MayManage(s.trades, s.account, s.pivots.pl, n))
  }

  ghost predicate Priceable(candles: seq<Candle>) {
    forall i :: 0 <= i < |candles| ==> candles[i].close > 0.0
  }

  ghost predicate Inv(s: State, candles: seq<Candle>) {
    && Priceable(candles)
    && s.pivots == PivotRuns.Run(Highs(candles), Lows(candles))
    && GoodParams(s.schedule.params)
    && LogOk(s.account.actions, |candles|)
    && MoneyOk(s, |candles|)
  }

  // ---------- keeping it ----------

  /** The pivots advance as in the runs of the detector alone. */
  lemma {:induction false} PivotsAdvance(s: State, candles: seq<Candle>)
    requires |candles| > 0 && s.pivots == PivotRuns.Run(Highs(PivotRuns.Front(candles)), Lows(PivotRuns.Front(candles)))
    ensures NextPivots(s, candles) == PivotRuns.Run(Highs(candles), Lows(candles))
    ensures |s.pivots.pl| <= |NextPivots(s, candles).pl|
  {
    assert Highs(PivotRuns.Front(candles)) == PivotRuns.Front(Highs(candles));
    assert Lows(PivotRuns.Front(candles)) == PivotRuns.Front(Lows(candles));
    PivotRuns.RunUnfolds(Highs(candles), Lows(candles));
  }

  /** The lists of a run suit the search for entries, whatever the number of lows asked for. */
  lemma {:induction false} ListsSuitSearch(candles: seq<Candle>, count: int)
    ensures var pl := PivotRuns.Run(Highs(candles), Lows(candles)).pl;
            && Priced(Lows(candles), pl) && Searchable(pl, count, 0)
            && (|candles| <= 1 ==> pl == [])
  {
    PivotTheorems.LowsAreIncreasing(Highs(candles), Lows(candles));
    WatchOnIncreasing(Lows(candles), PivotRuns.Run(Highs(candles), Lows(candles)).pl, count);
  }

  /** On pivot lows as those of a run the first of the series is listed exactly when at least one low was
      asked for: with none, every low closes a series and the read is past the end. */
  lemma {:induction false} FirstListedIff(low: seq<real>, pl: seq<nat>, count: int)
    requires |pl| > 0 && PivotTheorems.Increasing(pl) && forall i :: 0 <= i < |pl| ==> 1 <= pl[i] < |low|
    ensures Searchable(pl, count, 0) && (FirstListed(low, pl, count) <==> count >= 1)
  {
    WatchOnIncreasing(low, pl, count);
    if count < 1 {
      assert Descends(low, pl, count, 0);
    }
  }

  lemma {:induction false} TradeSafeIff(s: State, candles: seq<Candle>, params: Params, pl: seq<nat>)
    requires |candles| > 0 && candles[|candles| - 1].close > 0.0 && MoneyOk(s, |candles| - 1)
    requires Priced(Lows(candles), pl) && Searchable(pl, params.pivotLowsToEnter, 0)
    requires |pl| >= 4 ==> (FirstListed(Lows(candles), pl, params.pivotLowsToEnter) <==> params.pivotLowsToEnter >= 1)
    ensures TradeSafe(s.trades, WithRates(s.account), pl, candles, params)
       <==> (Searching(s.trades, WithRates(s.account), pl, params, |candles| - 1) ==> params.pivotLowsToEnter >= 1)
  {
    hide FirstListed, CoolingDown;
    assert More(ORDER_SLIPPAGE_PERC, candles[|candles| - 1].close) > 0.0;
  }

  /** In every run a call of strat1 stays in range and divides no integer by zero exactly when the number
      of lows asked for is not -1 and, if the call looks for an entry, at least one. */
  lemma {:induction false} SafeIff(s: State, candles: seq<Candle>, ml: Params)
    requires |candles| > 0 && candles[|candles| - 1].close > 0.0
    requires Inv(s, PivotRuns.Front(candles))
    ensures var params, pl := NextParams(s, ml), PivotRuns.Run(Highs(candles), Lows(candles)).pl;
            (Safe(s, candles, ml)
             <==> params.pivotLowsToEnter != -1
                  && (Searching(s.trades, WithRates(s.account), pl, params, |candles| - 1) ==>
                      params.pivotLowsToEnter >= 1))
  {
    hide NextPivots, Priced, Searchable, LogOk, PivotRuns.Run, Searching, FirstListed;
    PivotsAdvance(s, candles);
    var params := NextParams(s, ml);
    var pl := NextPivots(s, candles).pl;
    ListsSuitSearch(candles, params.pivotLowsToEnter);
    if |pl| >= 4 {
      PivotTheorems.LowsAreIncreasing(Highs(candles), Lows(candles));
      FirstListedIff(Lows(candles), pl, params.pivotLowsToEnter);
    }
    TradeSafeIff(s, candles, params, pl);
  }

  lemma {:induction false} LatestFrame(a: map<int, seq<Action>>, b: map<int, seq<Action>>, c: int)
    requires forall k :: 1 <= k <= c ==> ActionsAt(a, k) == ActionsAt(b, k)
    ensures LatestActions(a, c) == LatestActions(b, c)
    decreases if c < 0 then 0 else c
  {
    if c < 1 {
    } else {
      LatestFrame(a, b, c - 1);
    }
  }

  /** What a candle leaves: a flat account or an open trade, with at most one new log entry. */
  ghost predicate AfterCandle(trades: seq<DataPoint>, y: Account, x: Account, rel: nat) {
    && y.posLongSize >= 0.0
    && (y.posLongSize == 0.0 ==> y.totalEquity == y.availableEquity)
    && (y.posLongSize > 0.0 ==> |trades| > 0 && OpenEntry(LastTrade(trades), y.posLongSize))
    && (forall c :: c in y.actions ==> c in x.actions || c == rel)
    && (forall c :: c != rel ==> ActionsAt(y.actions, c) == ActionsAt(x.actions, c))
    && (rel in y.actions ==> rel >= 1 && GoodActs(y.actions[rel]))
    && (y.posLongSize > 0.0 && x.posLongSize == 0.0 ==> rel in y.actions)
    && (y.posLongSize > 0.0 && rel in y.actions ==>
        y.actions[rel][0].kind == Enter || y.actions[rel][0].kind == MultiTP)
  }

  /** The log grows by at most the new candle. */
  lemma {:induction false} LogKept(x: Account, y: Account, trades: seq<DataPoint>, rel: nat)
    requires LogOk(x.actions, rel) && AfterCandle(trades, y, x, rel)
    ensures LogOk(y.actions, rel + 1)
  {
    forall c | c in y.actions ensures 1 <= c < rel + 1 && GoodActs(y.actions[c]) {
      assert ActionsAt(y.actions, c) == y.actions[c];
      assert c != rel ==> ActionsAt(x.actions, c) == y.actions[c];
    }
  }

  /** The latest actions are still an entry or partial exits. */
  lemma {:induction false} LatestKept(x: Account, y: Account, trades: seq<DataPoint>, rel: nat)
    requires LogOk(x.actions, rel) && AfterCandle(trades, y, x, rel) && y.posLongSize > 0.0 && x.posLongSize >= 0.0
    requires x.posLongSize > 0.0 ==>
               var latest := LatestActions(x.actions, rel - 1);
               |latest| > 0 && (latest[0].kind == Enter || latest[0].kind == MultiTP)
    ensures var latest := LatestActions(y.actions, rel);
            |latest| > 0 && (latest[0].kind == Enter || latest[0].kind == MultiTP)
  {
    LatestFrame(x.actions, y.actions, rel - 1);
    assert rel in x.actions ==> rel < rel;
  }

  /** Everything but the pivots, after a candle that left the account as AfterCandle says. */
  lemma {:induction false} Assemble(s: State, s': State, rel: nat, ml: Params)
    requires GoodParams(s.schedule.params) && LogOk(s.account.actions, rel) && MoneyOk(s, rel) && GoodParams(ml)
    requires s'.schedule == Renewed(s.schedule, s.account.posLongSize, ml)
    requires AfterCandle(s'.trades, s'.account, WithRates(s.account), rel)
    requires s'.account.posLongSize > 0.0 ==> |s'.pivots.pl| >= 4
    requires rel == 0 ==> s'.pivots.pl == []
    ensures GoodParams(s'.schedule.params) && LogOk(s'.account.actions, rel + 1) && MoneyOk(s', rel + 1)
  {
    LogKept(WithRates(s.account), s'.account, s'.trades, rel);
    if s'.account.posLongSize > 0.0 {
      LatestKept(WithRates(s.account), s'.account, s'.trades, rel);
    }
  }

  lemma {:induction false} FrontPriceable(candles: seq<Candle>)
    requires |candles| > 0 && candles[|candles| - 1].close > 0.0 && Priceable(PivotRuns.Front(candles))
    ensures Priceable(candles)
  {
    forall i | 0 <= i < |candles| ensures candles[i].close > 0.0 {
      assert i < |candles| - 1 ==> PivotRuns.Front(candles)[i] == candles[i];
    }
  }

  /** The trading part of a step, whatever the pivot lists p of the candle are. */
  lemma {:induction false} TradingKeepsRest(s: State, candles: seq<Candle>, risk: real, lev: int, ml: Params,
                                            p: PivotSpec.Pivots)
    requires |candles| > 0 && Priceable(candles) && GoodParams(ml)
    requires GoodParams(s.schedule.params) && LogOk(s.account.actions, |candles| - 1) && MoneyOk(s, |candles| - 1)
    requires TradeSafe(s.trades, WithRates(s.account), p.pl, candles, NextParams(s, ml))
    requires |s.pivots.pl| <= |p.pl| && (forall i :: 0 <= i < |p.pl| ==> 1 <= p.pl[i])
    requires |candles| == 1 ==> p.pl == []
    ensures var r := Trade(s.trades, WithRates(s.account), p.pl, candles, risk, lev, NextParams(s, ml));
            var s' := State(Renewed(s.schedule, s.account.posLongSize, ml), p, r.0, r.1);
            GoodParams(s'.schedule.params) && LogOk(s'.account.actions, |candles|) && MoneyOk(s', |candles|)
  {
    var x, params := WithRates(s.account), NextParams(s, ml);
    TradeKeeps(s.trades, x, p.pl, candles, risk, lev, params);
    var r := Trade(s.trades, x, p.pl, candles, risk, lev, params);
    AssembleFrom(s, p, r.0, r.1, |candles| - 1, ml);
  }

  lemma {:induction false} AssembleFrom(s: State, p: PivotSpec.Pivots, trades: seq<DataPoint>, y: Account, rel: nat,
                                        ml: Params)
    requires GoodParams(s.schedule.params) && LogOk(s.account.actions, rel) && MoneyOk(s, rel) && GoodParams(ml)
    requires AfterCandle(trades, y, WithRates(s.account), rel)
    requires y.posLongSize > 0.0 ==> |p.pl| >= 4
    requires rel == 0 ==> p.pl == []
    ensures var s' := State(Renewed(s.schedule, s.account.posLongSize, ml), p, trades, y);
            GoodParams(s'.schedule.params) && LogOk(y.actions, rel + 1) && MoneyOk(s', rel + 1)
  {
    Assemble(s, State(Renewed(s.schedule, s.account.posLongSize, ml), p, trades, y), rel, ml);
  }

  lemma {:induction false} PartsBefore(s: State, candles: seq<Candle>)
    requires |candles| > 0 && Inv(s, PivotRuns.Front(candles))
    ensures GoodParams(s.schedule.params) && LogOk(s.account.actions, |candles| - 1) && MoneyOk(s, |candles| - 1)
  {
    assert |PivotRuns.Front(candles)| == |candles| - 1;
  }

  lemma {:induction false} LowsArePositive(candles: seq<Candle>)
    ensures var pl := PivotRuns.Run(Highs(candles), Lows(candles)).pl; forall i :: 0 <= i < |pl| ==> 1 <= pl[i]
  {
    PivotTheorems.LowsAreIncreasing(Highs(candles), Lows(candles));
  }

  /** The trading part leaves the account as AfterCandle says. */
  lemma {:induction false} TradeKeeps(trades: seq<DataPoint>, x: Account, pl: seq<nat>, candles: seq<Candle>,
                                      risk: real, lev: int, params: Params)
    requires TradeSafe(trades, x, pl, candles, params) && Priceable(candles) && x == WithRates(x)
    requires LogOk(x.actions, |candles| - 1) && GoodTargets(params.tpMap)
    requires forall i :: 0 <= i < |pl| ==> 1 <= pl[i]
    requires x.posLongSize >= 0.0 && (x.posLongSize == 0.0 ==> x.totalEquity == x.availableEquity)
    requires x.posLongSize > 0.0 ==> MayManage(trades, x, pl, |candles| - 1)
    ensures var r := Trade(trades, x, pl, candles, risk, lev, params);
            && AfterCandle(r.0, r.1, x, |candles| - 1)
            && (r.1.posLongSize > 0.0 ==> |pl| >= 4)
  {
    var rel := |candles| - 1;
    assert rel !in x.actions;
    if x.posLongSize > 0.0 {
      OpenIsManaged(trades, x, pl, candles, risk, lev, params);
      ManagedKeeps(trades, x, candles);
    } else {
      var pivot := EntryPivot(trades, LatestActions(x.actions, rel - 1), pl, candles, params);
      if pivot.Some? {
        EnteredKeeps(trades, x, pivot.value, candles, risk, lev, params);
      }
    }
  }

  lemma {:induction false} LatestNeedsCandle(actions: map<int, seq<Action>>, c: int)
    ensures |LatestActions(actions, c)| > 0 ==> c >= 1
  {
  }

  /** An open position is managed on every candle: no cooldown gate applies. */
  lemma {:induction false} OpenIsManaged(trades: seq<DataPoint>, x: Account, pl: seq<nat>, candles: seq<Candle>,
                                         risk: real, lev: int, params: Params)
    requires TradeSafe(trades, x, pl, candles, params) && x.posLongSize > 0.0 && MayManage(trades, x, pl, |candles| - 1)
    ensures |candles| > 1 && Trade(trades, x, pl, candles, risk, lev, params) == Managed(trades, x, candles)
  {
    LatestNeedsCandle(x.actions, |candles| - 2);
  }

  lemma {:induction false} ManagedKeeps(trades: seq<DataPoint>, x: Account, candles: seq<Candle>)
    requires |candles| > 1 && candles[|candles| - 1].close > 0.0 && x.posLongSize > 0.0
    requires |trades| > 0 && OpenEntry(LastTrade(trades), x.posLongSize)
    requires |candles| - 1 !in x.actions
    ensures var r := Managed(trades, x, candles); AfterCandle(r.0, r.1, x, |candles| - 1)
  {
    var rel := |candles| - 1;
    var e := LastTrade(trades);
    if Expired(e, rel) || Stopped(e, candles[rel]) {
      ManagedCloses(trades, x, candles);
      var kind := if Expired(e, rel) then Max else SL;
      var price := if Expired(e, rel) then candles[rel].close else e.slPrice;
      FlatEquity(x, price, rel, kind);
      OneExit(x, price, 100.0, -1.0, rel, kind, 0.0);
    } else if e.multiTPs.value == [] {
      ManagedWaits(trades, x, candles);
    } else {
      var ps := e.multiTPs.value;
      var d: nat :| Covers(ps, d, x.posLongSize);
      var f := ReachExists(ps, d, candles[rel].high);
      ManagedFires(trades, x, candles, ps, d, f);
      var e' := e.(multiTPs := Some(DoneUpTo(ps, f)));
      ManyExits(Book(trades, e', x), DoneRange(ps, d, f), rel, 0.0);
      SizesStayPositive(ps, d, f);
      DoneUpToKeepsRungs(ps, d, f);
      assert f < |ps| ==> Covers(DoneUpTo(ps, f), f, Managed(trades, x, candles).1.posLongSize);
    }
  }

  /** The size bought is positive and the ladder, if any, covers it. */
  lemma {:induction false} EnteredKeeps(trades: seq<DataPoint>, x0: Account, entry: nat, candles: seq<Candle>,
                                        risk: real, lev: int, params: Params)
    requires 1 <= entry && entry < |candles| && Buyable(WithRates(x0), candles) && Priceable(candles)
    requires x0.posLongSize == 0.0 && x0.totalEquity == x0.availableEquity && GoodTargets(params.tpMap)
    requires |candles| - 1 !in x0.actions
    ensures var r := Entered(trades, WithRates(x0), entry, candles, risk, lev, params);
            AfterCandle(r.0, r.1, WithRates(x0), |candles| - 1)
  {
    var x := WithRates(x0);
    var rel := |candles| - 1;
    var e := EntryRecord(trades, entry, candles, params);
    var close := candles[rel].close;
    var cap := CalcEntry(close, e.slPrice, risk, x.availableEquity, lev).0;
    if !TooSmall(cap) {
      var size := EntryCap(x, cap) / EntryPrice(x, close);
      SizePositive(cap, close);
      if e.multiTPs.Some? {
        var a := FirstHigher(candles, entry, entry + 1).value;
        assert e.multiTPs.value == PointsOf(params.tpMap, candles[a].close);
        NewLadder(params.tpMap, candles[a].close, size);
      }
    }
  }

  lemma {:induction false} SizePositive(cap: real, close: real)
    requires cap > 10.0 && close > 0.0
    ensures Less(EXCHANGE_TRADE_FEE_PERC, cap) / More(ORDER_SLIPPAGE_PERC, close) > 0.0
  {
    var c, p := Less(EXCHANGE_TRADE_FEE_PERC, cap), More(ORDER_SLIPPAGE_PERC, close);
    assert c > 0.0 && p > 0.0;
    assert (c / p) * p == c;
  }

  // ---------- one candle of a run ----------

  /** The trading part of the candle that led from s to s'. */
  ghost predicate Traded(s: State, s': State, candles: seq<Candle>, risk: real, lev: int) {
    && TradeSafe(s.trades, WithRates(s.account), s'.pivots.pl, candles, s'.schedule.params)
    && (s'.trades, s'.account)
        == Trade(s.trades, WithRates(s.account), s'.pivots.pl, candles, risk, lev, s'.schedule.params)
  }

  /** What is known of one candle of any run, the last of candles, that led from s to s'. */
  ghost predicate Link(s: State, s': State, candles: seq<Candle>, risk: real, lev: int, ml: Params) {
    && |candles| > 0 && Priceable(candles) && GoodParams(ml)
    && GoodParams(s.schedule.params) && LogOk(s.account.actions, |candles| - 1) && MoneyOk(s, |candles| - 1)
    && s'.schedule == Renewed(s.schedule, s.account.posLongSize, ml)
    && |s.pivots.pl| <= |s'.pivots.pl| && (forall i :: 0 <= i < |s'.pivots.pl| ==> 1 <= s'.pivots.pl[i])
    && (|candles| == 1 ==> s'.pivots.pl == [])
    && Traded(s, s', candles, risk, lev)
  }

  lemma {:induction false} StepLinks(s: State, candles: seq<Candle>, risk: real, lev: int, ml: Params)
    requires |candles| > 0 && candles[|candles| - 1].close > 0.0 && GoodParams(ml)
    requires Inv(s, PivotRuns.Front(candles)) && Safe(s, candles, ml)
    ensures Link(s, Step(s, candles, risk, lev, ml), candles, risk, lev, ml)
    ensures Step(s, candles, risk, lev, ml).pivots == PivotRuns.Run(Highs(candles), Lows(candles))
  {
    hide Trade, TradeSafe, MoneyOk, LogOk, Priceable, NextPivots, PivotRuns.Run, Renewed, GoodParams;
    FrontPriceable(candles);
    PivotsAdvance(s, candles);
    ListsSuitSearch(candles, 0);
    LowsArePositive(candles);
    PartsBefore(s, candles);
  }

  lemma {:induction false} LinkKeepsInv(s: State, s': State, candles: seq<Candle>, risk: real, lev: int, ml: Params)
    requires Link(s, s', candles, risk, lev, ml) && s'.pivots == PivotRuns.Run(Highs(candles), Lows(candles))
    ensures Inv(s', candles)
  {
    TradingKeepsRest(s, candles, risk, lev, ml, s'.pivots);
  }

  // ---------- runs ----------

  /** Initial globals and equity, risk percentage and leverage of a backtest. */
  datatype Setup = Setup(globals: Schedule, equity: real, risk: real, lev: int)

  function Initial(u: Setup): State {
    State(u.globals, PivotSpec.Pivots([], []), [], Opened(u.equity))
  }

  /** strat1 is safe to call on candle i in state s, with the candles so far, and leaves s'. */
  ghost predicate Called(u: Setup, ins: seq<Input>, i: nat, s: State, s': State)
    requires i < |ins|
  {
    var candles := CandlesOf(ins[..i + 1]);
    Safe(s, candles, ins[i].ml) && s' == Step(s, candles, u.risk, u.lev, ins[i].ml)
  }

  ghost predicate Moves(u: Setup, ins: seq<Input>, ss: seq<State>, i: nat)
    requires i < |ins| && |ss| == |ins| + 1
  {
    Called(u, ins, i, ss[i], ss[i + 1])
  }

  /** ss are the states before and after every candle of a backtest over ins. */
  ghost predicate IsRun(u: Setup, ins: seq<Input>, ss: seq<State>) {
    && GoodStart(u.globals) && GoodInputs(ins)
    && |ss| == |ins| + 1 && ss[0] == Initial(u)
    && forall i :: 0 <= i < |ins| ==> Moves(u, ins, ss, i)
  }

  lemma {:induction false} RunKeepsInv(u: Setup, ins: seq<Input>, ss: seq<State>, n: nat)
    requires IsRun(u, ins, ss) && n <= |ins|
    ensures Inv(ss[n], CandlesOf(ins[..n]))
    decreases n, 0
  {
    hide Moves, Link, Inv, Initial, GoodStart, GoodInputs;
    if n == 0 {
      InitialInv(u, ins);
    } else {
      RunLinks(u, ins, ss, n - 1);
    }
  }

  lemma {:induction false} InitialInv(u: Setup, ins: seq<Input>)
    requires GoodStart(u.globals)
    ensures Inv(Initial(u), CandlesOf(ins[..0]))
  {
  }

  /** Every candle of every run is a link that keeps the invariant. */
  lemma {:induction false} RunLinks(u: Setup, ins: seq<Input>, ss: seq<State>, i: nat)
    requires IsRun(u, ins, ss) && i < |ins|
    ensures Link(ss[i], ss[i + 1], CandlesOf(ins[..i + 1]), u.risk, u.lev, ins[i].ml)
    ensures Inv(ss[i + 1], CandlesOf(ins[..i + 1]))
    decreases i, 1
  {
    var candles := CandlesOf(ins[..i + 1]);
    RunKeepsInv(u, ins, ss, i);
    assert CandlesOf(ins[..i]) == PivotRuns.Front(candles);
    assert Moves(u, ins, ss, i) && Called(u, ins, i, ss[i], ss[i + 1]);
    StepLinks(ss[i], candles, u.risk, u.lev, ins[i].ml);
    LinkKeepsInv(ss[i], ss[i + 1], candles, u.risk, u.lev, ins[i].ml);
  }

  /** A candle of a run is the same candle of any longer run. */
  lemma {:induction false} MovesLater(u: Setup, ins: seq<Input>, ss: seq<State>, ins': seq<Input>, ss': seq<State>,
                                      i: nat)
    requires i < |ins| && |ss| == |ins| + 1 && ins <= ins' && ss <= ss' && |ss'| == |ins'| + 1
    requires Moves(u, ins, ss, i)
    ensures Moves(u, ins', ss', i)
  {
    assert ins[..i + 1] == ins'[..i + 1];
  }

  /** One more candle makes the run one longer. */
  lemma {:induction false} RunGrows(u: Setup, ins: seq<Input>, i: nat, ss: seq<State>, s': State)
    requires GoodInputs(ins) && i < |ins| && IsRun(u, ins[..i], ss) && Called(u, ins, i, ss[i], s')
    ensures IsRun(u, ins[..i + 1], ss + [s'])
  {
    hide Called;
    var longer, more := ins[..i + 1], ss + [s'];
    forall j | 0 <= j < |longer| ensures Moves(u, longer, more, j) {
      if j < i {
        MovesLater(u, ins[..i], ss, longer, more, j);
      } else {
        LastMoves(u, ins, i, ss, s');
      }
    }
  }

  lemma {:induction false} LastMoves(u: Setup, ins: seq<Input>, i: nat, ss: seq<State>, s': State)
    requires i < |ins| && |ss| == i + 1 && Called(u, ins, i, ss[i], s')
    ensures Moves(u, ins[..i + 1], ss + [s'], i)
  {
    hide Safe, Step;
    assert ins[..i + 1][..i + 1] == ins[..i + 1];
  }

  lemma {:induction false} MovesBefore(u: Setup, ins: seq<Input>, ss: seq<State>, n: nat, i: nat)
    requires i < n <= |ins| && |ss| == |ins| + 1 && Moves(u, ins, ss, i)
    ensures Moves(u, ins[..n], ss[..n + 1], i)
  {
    hide Safe, Step;
    assert ins[..n][..i + 1] == ins[..i + 1];
  }

  /** The beginning of a run is a run. */
  lemma {:induction false} RunPrefix(u: Setup, ins: seq<Input>, ss: seq<State>, n: nat)
    requires IsRun(u, ins, ss) && n <= |ins|
    ensures IsRun(u, ins[..n], ss[..n + 1])
  {
    hide Moves;
    var shorter, fewer := ins[..n], ss[..n + 1];
    forall i | 0 <= i < n ensures Moves(u, shorter, fewer, i) {
      MovesBefore(u, ins, ss, n, i);
    }
  }

  lemma {:induction false} SameMove(u: Setup, ins: seq<Input>, ss: seq<State>, ins': seq<Input>, ss': seq<State>,
                                    i: nat)
    requires ins <= ins' && i < |ins| && |ss| == |ins| + 1 && |ss'| == |ins'| + 1
    requires Moves(u, ins, ss, i) && Moves(u, ins', ss', i) && ss[i] == ss'[i]
    ensures ss[i + 1] == ss'[i + 1]
  {
    hide Safe, Step;
    assert ins[..i + 1] == ins'[..i + 1];
  }

  /** Runs are determined by their inputs: a run over more candles goes on from the run over fewer. */
  lemma {:induction false} RunsAgree(u: Setup, ins: seq<Input>, ss: seq<State>, ins': seq<Input>, ss': seq<State>,
                                     n: nat)
    requires IsRun(u, ins, ss) && IsRun(u, ins', ss') && ins <= ins' && n <= |ins|
    ensures ss[..n + 1] == ss'[..n + 1]
  {
    hide Moves, GoodInputs, GoodStart, Initial;
    if n == 0 {
      assert ss[..1] == [ss[0]] && ss'[..1] == [ss'[0]];
    } else {
      RunsAgree(u, ins, ss, ins', ss', n - 1);
      assert ss[n - 1] == ss[..n][n - 1] == ss'[..n][n - 1] == ss'[n - 1];
      assert Moves(u, ins, ss, n - 1) && Moves(u, ins', ss', n - 1);
      SameMove(u, ins, ss, ins', ss', n - 1);
      assert ss[..n + 1] == ss[..n] + [ss[n]] && ss'[..n + 1] == ss'[..n] + [ss'[n]];
    }
  }

  /** After every run the next call stays in range and divides no integer by zero exactly when the number of
      lows asked for is not -1 and, if the call looks for an entry, at least one. */
  lemma {:induction false} NextIsSafeIff(u: Setup, ins: seq<Input>, i: nat, ss: seq<State>)
    requires GoodInputs(ins) && i < |ins| && IsRun(u, ins[..i], ss)
    ensures var candles := CandlesOf(ins[..i + 1]);
            var params, pl := NextParams(ss[i], ins[i].ml), PivotRuns.Run(Highs(candles), Lows(candles)).pl;
            (Safe(ss[i], candles, ins[i].ml)
             <==> params.pivotLowsToEnter != -1
                  && (Searching(ss[i].trades, WithRates(ss[i].account), pl, params, i) ==>
                      params.pivotLowsToEnter >= 1))
  {
    hide Moves, Inv, Safe, PivotRuns.Run, Searching, NextParams;
    RunKeepsInv(u, ins[..i], ss, i);
    assert ins[..i][..i] == ins[..i];
    assert CandlesOf(ins[..i]) == PivotRuns.Front(CandlesOf(ins[..i + 1]));
    SafeIff(ss[i], CandlesOf(ins[..i + 1]), ins[i].ml);
  }

  // ---------- runs exist ----------

  /** At least one low is asked for, or the next renewal comes before any is looked for. */
  ghost predicate StartAsksLows(g: Schedule) {
    || g.params.pivotLowsToEnter >= 1
    || (g.runMLPeriod == ML_PERIOD && (g.firstTime ==> g.params.pivotLowsToEnter != -1))
  }

  /** The flag and the counter of the globals after n calls; they depend on nothing else. */
  function CounterAfter(g: Schedule, n: nat): (bool, int) {
    if n == 0 then (g.firstTime, g.runMLPeriod)
    else
      var c := CounterAfter(g, n - 1);
      (false, if c.0 then c.1 else if c.1 == ML_PERIOD then 0 else c.1 + 1)
  }

  /** The call on candle i finds the counter full: only then is an answer used, if the account is flat. */
  predicate Due(g: Schedule, i: nat) {
    CounterAfter(g, i) == (false, ML_PERIOD)
  }

  /** The answers on due candles ask for at least one low, and so does the start. */
  ghost predicate AsksLows(u: Setup, ins: seq<Input>) {
    StartAsksLows(u.globals) && forall i :: 0 <= i < |ins| && Due(u.globals, i) ==> ins[i].ml.pivotLowsToEnter >= 1
  }

  /** Flag and counter of a state, and what the call on it does with an answer. */
  predicate Renews(s: State) {
    !s.schedule.firstTime && s.schedule.runMLPeriod == ML_PERIOD
  }

  lemma {:induction false} RunCounter(u: Setup, ins: seq<Input>, ss: seq<State>, n: nat)
    requires IsRun(u, ins, ss) && n <= |ins|
    ensures (ss[n].schedule.firstTime, ss[n].schedule.runMLPeriod) == CounterAfter(u.globals, n)
    ensures Renews(ss[n]) <==> Due(u.globals, n)
  {
    hide Moves, Traded, LogOk, MoneyOk, Priceable, GoodParams, Inv;
    if n == 0 {
    } else {
      RunCounter(u, ins, ss, n - 1);
      RunLinks(u, ins, ss, n - 1);
    }
  }

  /** What the parameters have come to after n candles. */
  ghost predicate CountOk(s: State, n: nat) {
    || s.schedule.params.pivotLowsToEnter >= 1
    || (n <= 1 && s.account.posLongSize == 0.0 && StartAsksLows(s.schedule) && (n == 1 ==> !s.schedule.firstTime))
  }

  lemma {:induction false} LinkKeepsCount(s: State, s': State, candles: seq<Candle>, risk: real, lev: int, ml: Params)
    requires Link(s, s', candles, risk, lev, ml) && CountOk(s, |candles| - 1)
    requires Renews(s) ==> ml.pivotLowsToEnter >= 1
    ensures CountOk(s', |candles|)
  {
    hide Managed, EntryPivot, Entered, LogOk, MoneyOk, GoodTargets;
  }

  lemma {:induction false} RunAsksLows(u: Setup, ins: seq<Input>, ss: seq<State>, n: nat)
    requires IsRun(u, ins, ss) && AsksLows(u, ins) && n <= |ins|
    ensures CountOk(ss[n], n)
  {
    hide Moves, Link, Inv, CountOk, Due, Renews;
    if n == 0 {
      assert CountOk(Initial(u), 0) by { InitialCount(u); }
    } else {
      RunAsksLows(u, ins, ss, n - 1);
      RunLinks(u, ins, ss, n - 1);
      RunCounter(u, ins, ss, n - 1);
      LinkKeepsCount(ss[n - 1], ss[n], CandlesOf(ins[..n]), u.risk, u.lev, ins[n - 1].ml);
    }
  }

  lemma {:induction false} InitialCount(u: Setup)
    requires StartAsksLows(u.globals)
    ensures CountOk(Initial(u), 0)
  {
  }

  lemma {:induction false} CountIsUsed(s: State, n: nat, ml: Params)
    requires CountOk(s, n) && (Renews(s) ==> ml.pivotLowsToEnter >= 1)
    ensures var count := NextParams(s, ml).pivotLowsToEnter; count != -1 && (n == 0 || count >= 1)
  {
  }

  /** When at least one low is asked for on the due candles, no run gets stuck: strat1 can be called on every
      candle. */
  lemma {:induction false} RunExists(u: Setup, ins: seq<Input>) returns (ss: seq<State>)
    requires GoodStart(u.globals) && GoodInputs(ins) && AsksLows(u, ins)
    ensures IsRun(u, ins, ss)
  {
    hide Moves, Safe, Step, GoodStart, StartAsksLows;
    if |ins| == 0 {
      ss := [Initial(u)];
    } else {
      var n := |ins| - 1;
      var rs := RunExists(u, ins[..n]);
      RunIsSafe(u, ins, n, rs);
      var s' := Step(rs[n], CandlesOf(ins[..n + 1]), u.risk, u.lev, ins[n].ml);
      RunGrows(u, ins, n, rs, s');
      ss := rs + [s'];
      assert ins[..n + 1] == ins;
    }
  }

  /** The next call after a run is safe. */
  lemma {:induction false} RunIsSafe(u: Setup, ins: seq<Input>, i: nat, ss: seq<State>)
    requires GoodInputs(ins) && i < |ins| && IsRun(u, ins[..i], ss) && AsksLows(u, ins)
    ensures Safe(ss[i], CandlesOf(ins[..i + 1]), ins[i].ml)
  {
    hide Moves, Safe, CountOk, NextParams, PivotRuns.Run, CoolingDown, Due, Renews;
    RunAsksLows(u, ins[..i], ss, i);
    RunCounter(u, ins[..i], ss, i);
    CountIsUsed(ss[i], i, ins[i].ml);
    NextIsSafeIff(u, ins, i, ss);
    ListsSuitSearch(CandlesOf(ins[..i + 1]), 0);
  }
}
