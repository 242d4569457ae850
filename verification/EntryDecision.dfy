/** When strat1 enters: over runs, the exact condition on the pivot lows, and what it stores. */
module EntryDecision {
  import opened Records
  import opened Executor
  import opened EntryWatch
  import opened Strategy
  import opened StrategyRuns
  import opened TradeTheorems
  import opened FirstEntry
  import opened Cooldown
  import PivotRuns
  import PivotTheorems

  /** Pivot lows as a run lists them: increasing, and each followed by a candle. */
  ghost predicate Listed(candles: seq<Candle>, pl: seq<nat>) {
    PivotTheorems.Increasing(pl) && forall i :: 0 <= i < |pl| ==> 1 <= pl[i] && pl[i] + 1 < |candles|
  }

  /** There are four lows, and as many as asked for; the last of them descend in price, and the latest lies after
      the given candle. */
  ghost predicate Qualifies(candles: seq<Candle>, pl: seq<nat>, count: int, after: int)
    requires Listed(candles, pl)
  {
    && |pl| >= 4 && |pl| >= count && pl[|pl| - 1] > after
    && forall j :: |pl| - count < j < |pl| && j > 0 ==> candles[pl[j]].low < candles[pl[j - 1]].low
  }

  lemma {:induction false} DescendsIff(candles: seq<Candle>, pl: seq<nat>, count: int, after: int)
    requires Listed(candles, pl) && |pl| >= 4 && 1 <= count <= |pl|
    ensures Priced(Lows(candles), pl)
    ensures Qualifies(candles, pl, count, after)
       <==> Descends(Lows(candles), pl, count, |pl| - 1) && pl[|pl| - 1] > after
  {
    forall j | |pl| - count < j < |pl|
      ensures StepsDown(Lows(candles), pl, j) <==> candles[pl[j]].low < candles[pl[j - 1]].low
    {
    }
  }

  /** The search of a call returns the latest low last exactly if the last ones descend. */
  lemma {:induction false} EntryPivotIff(trades: seq<DataPoint>, latest: seq<Action>, candles: seq<Candle>,
                                         pl: seq<nat>, params: Params)
    requires Listed(candles, pl) && |pl| >= 4 && params.pivotLowsToEnter >= 1
    ensures Priced(Lows(candles), pl) && Searchable(pl, params.pivotLowsToEnter, 0)
    ensures EntryPivot(trades, latest, pl, candles, params).Some?
       <==> Qualifies(candles, pl, params.pivotLowsToEnter, MinTradingIndex(trades, latest, params.slCooldownCandles))
  {
    hide Descends, Qualifies, Watch, Searchable, MinTradingIndex;
    var low, count, last := Lows(candles), params.pivotLowsToEnter, pl[|pl| - 1];
    WatchIsExact(low, pl, count);
    if |pl| >= count {
      DescendsIff(candles, pl, count, MinTradingIndex(trades, latest, params.slCooldownCandles));
      if Descends(low, pl, count, |pl| - 1) {
        LatestQualifies(low, pl, count);
      } else {
        assert last !in Watch(low, pl, count, 0);
      }
    } else {
      TooFew(candles, pl, count, MinTradingIndex(trades, latest, params.slCooldownCandles));
    }
  }

  lemma {:induction false} TooFew(candles: seq<Candle>, pl: seq<nat>, count: int, after: int)
    requires Listed(candles, pl) && |pl| < count
    ensures !Qualifies(candles, pl, count, after)
  {
  }

  /** Where the last stored trade ended; a record that was never broken counts as candle 0. */
  function LastBreak(trades: seq<DataPoint>): int {
    if |trades| == 0 then 0 else trades[|trades| - 1].breakIndex
  }

  /** The wait by the log: the cooldown after a stop-loss, none after anything else. */
  function WaitBy(latest: seq<Action>, slCooldownCandles: int): int {
    if |latest| > 0 && latest[0].kind == SL then slCooldownCandles else 0
  }

  /** A flat call stores a record if and only if the latest pivot low qualifies; the cooldown gate never matters
      on top of that. */
  lemma {:induction false} LinkStoresIff(s: State, s': State, candles: seq<Candle>, risk: real, lev: int, ml: Params)
    requires Link(s, s', candles, risk, lev, ml) && !Open(s) && Listed(candles, s'.pivots.pl)
    ensures var latest := LatestActions(s.account.actions, |candles| - 2);
            var after := LastBreak(s.trades) + WaitBy(latest, s'.schedule.params.slCooldownCandles);
            s'.trades != s.trades <==> Qualifies(candles, s'.pivots.pl, s'.schedule.params.pivotLowsToEnter, after)
    ensures s'.trades != s.trades ==>
              && |s'.trades| == |s.trades| + 1 && s'.trades[|s.trades|].breakIndex == 0
              && |s'.pivots.pl| > 0 && s'.pivots.pl[|s'.pivots.pl| - 1] < |candles|
              && (s'.trades, s'.account)
                 == Entered(s.trades, WithRates(s.account), s'.pivots.pl[|s'.pivots.pl| - 1], candles, risk, lev,
                            s'.schedule.params)
  {
    hide MoneyOk, LogOk, Priceable, TradeSafe, Trade, Entered, Qualifies;
    TradeStoresIff(s.trades, WithRates(s.account), s'.pivots.pl, candles, risk, lev, s'.schedule.params);
  }

  lemma {:induction false} TradeStoresIff(trades: seq<DataPoint>, x: Account, pl: seq<nat>, candles: seq<Candle>,
                                          risk: real, lev: int, params: Params)
    requires TradeSafe(trades, x, pl, candles, params) && x.posLongSize <= 0.0 && Listed(candles, pl)
    ensures var r, latest := Trade(trades, x, pl, candles, risk, lev, params), LatestActions(x.actions, |candles| - 2);
            var after := LastBreak(trades) + WaitBy(latest, params.slCooldownCandles);
            && (r.0 != trades <==> Qualifies(candles, pl, params.pivotLowsToEnter, after))
            && (r.0 != trades ==>
                  && |r.0| == |trades| + 1 && r.0[|trades|].breakIndex == 0
                  && |pl| > 0 && pl[|pl| - 1] < |candles|
                  && r == Entered(trades, x, pl[|pl| - 1], candles, risk, lev, params))
  {
    hide FirstListed, EntryPivot, Priced, Searchable, Entered, LatestActions, Listed, Qualifies;
    var rel := |candles| - 1;
    var latest := LatestActions(x.actions, rel - 1);
    var after := LastBreak(trades) + WaitBy(latest, params.slCooldownCandles);
    LateEnough(candles, pl, params.pivotLowsToEnter, after);
    assert MinTradingIndex(trades, latest, params.slCooldownCandles) == after;
    if Searching(trades, x, pl, params, rel) {
      AsksForOne(candles, pl, params.pivotLowsToEnter);
      EntryPivotIff(trades, latest, candles, pl, params);
      var pivot := EntryPivot(trades, latest, pl, candles, params);
      if pivot.Some? {
        EnteredStores(trades, x, pivot.value, candles, risk, lev, params);
      }
    }
  }

  lemma {:induction false} AsksForOne(candles: seq<Candle>, pl: seq<nat>, count: int)
    requires Listed(candles, pl) && |pl| >= 4 && Priced(Lows(candles), pl) && Searchable(pl, count, 0)
    requires FirstListed(Lows(candles), pl, count)
    ensures count >= 1
  {
    FirstListedIff(Lows(candles), pl, count);
  }

  lemma {:induction false} LateEnough(candles: seq<Candle>, pl: seq<nat>, count: int, after: int)
    requires Listed(candles, pl)
    ensures Qualifies(candles, pl, count, after) ==> |pl| >= 4 && |candles| - 1 > after
  {
  }

  lemma {:induction false} EnteredStores(trades: seq<DataPoint>, x: Account, entry: nat, candles: seq<Candle>,
                                         risk: real, lev: int, params: Params)
    requires entry < |candles| && Buyable(x, candles)
    ensures var r := Entered(trades, x, entry, candles, risk, lev, params).0;
            |r| == |trades| + 1 && r[..|trades|] == trades && r[|trades|].breakIndex == 0
  {
  }

  // ---------- over runs ----------

  lemma {:induction false} RunListed(u: Setup, ins: seq<Input>, ss: seq<State>, k: nat)
    requires IsRun(u, ins, ss) && k <= |ins|
    ensures Listed(CandlesOf(ins[..k]), ss[k].pivots.pl)
  {
    hide Moves, PivotRuns.Run;
    RunPivotsAre(u, ins, ss, k);
    var candles := CandlesOf(ins[..k]);
    PivotTheorems.LowsAreIncreasing(Highs(candles), Lows(candles));
  }

  /** Before anything was stored a flat call stores a record exactly if the latest low qualifies at all. */
  lemma {:induction false} FirstEntryIff(u: Setup, ins: seq<Input>, ss: seq<State>, k: nat)
    requires IsRun(u, ins, ss) && k < |ins| && ss[k].trades == [] && !Open(ss[k]) && ss[k].account.actions == map[]
    ensures Listed(CandlesOf(ins[..k + 1]), ss[k + 1].pivots.pl)
    ensures ss[k + 1].trades != []
       <==> Qualifies(CandlesOf(ins[..k + 1]), ss[k + 1].pivots.pl, ss[k + 1].schedule.params.pivotLowsToEnter, 0)
  {
    hide Moves, Link, Inv, Qualifies, Listed;
    RunLinks(u, ins, ss, k);
    RunListed(u, ins, ss, k + 1);
    NoLatest(k - 1);
    LinkStoresIff(ss[k], ss[k + 1], CandlesOf(ins[..k + 1]), u.risk, u.lev, ins[k].ml);
  }

  /** Candle x closed the trade with this record at its stop: it had not reached the deadline and its low had
      reached the stop. */
  predicate ClosedAtStop(e: DataPoint, x: nat, c: Candle) {
    (e.maxExitIndex == 0 || x < e.maxExitIndex) && 0.0 < e.slPrice && c.low <= e.slPrice
  }

  /** After candle x closed a trade a flat call stores a record if and only if there are at least four lows and as
      many as asked for, the last that many descend in price, and the latest lies after candle x, by more than the
      cooldown in force if x was a stop-loss; once a buy has been refused, candle 0 counts instead of x. So strat1
      does enter again. */
  lemma {:induction false} EntersAgainIff(u: Setup, ins: seq<Input>, ss: seq<State>, x: nat, k: nat)
    requires IsRun(u, ins, ss) && x < k < |ins| && FlatSince(ss, x, k)
    ensures |ss[x].trades| > 0 && Listed(CandlesOf(ins[..k + 1]), ss[k + 1].pivots.pl)
    ensures var params := ss[k + 1].schedule.params;
            var wait := if ClosedAtStop(ss[x].trades[|ss[x].trades| - 1], x, ins[x].candle)
                        then params.slCooldownCandles else 0;
            ss[k + 1].trades != ss[k].trades
            <==> Qualifies(CandlesOf(ins[..k + 1]), ss[k + 1].pivots.pl, params.pivotLowsToEnter,
                           if NoneStored(ss, x, k) then x + wait else wait)
  {
    hide Moves, Link, Inv, Qualifies, Listed, LatestActions;
    WhileFlat(u, ins, ss, x, k);
    RunLinks(u, ins, ss, k);
    RunListed(u, ins, ss, k + 1);
    LinkStoresIff(ss[k], ss[k + 1], CandlesOf(ins[..k + 1]), u.risk, u.lev, ins[k].ml);
  }
}
