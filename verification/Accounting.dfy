/** Conservation of money over whole runs of strat1: equity moves only by what the trade log reports. */
module Accounting {
  import opened Records
  import opened Executor
  import opened ExecutorLaws
  import opened TradeLog
  import opened TrendBreak
  import opened Strategy
  import opened Ladder
  import opened OpenTrade
  import opened StrategyRuns
  import PivotRuns

  /** The simulated trades computeBacktest has collected after n candles. */
  function Collected(ss: seq<State>, n: nat): seq<Row>
    requires n < |ss|
  {
    if n == 0 then [] else Collected(ss, n - 1) + Kept(Report(ss[n].account.actions, n - 1))
  }

  lemma {:induction false} NetOfConcat(a: seq<Row>, b: seq<Row>)
    ensures NetOf(a + b) == NetOf(a) + NetOf(b)
  {
    if |b| == 0 {
      assert a + b == a;
    } else {
      assert (a + b)[..|a + b| - 1] == a + b[..|b| - 1];
      NetOfConcat(a, b[..|b| - 1]);
    }
  }

  /** Cash, plus an open position at its entry price, is the initial equity plus the net result so far. */
  ghost predicate Balanced(x: Account, n: int, total: real) {
    if x.posLongSize == 0.0 then x.availableEquity == total
    else Balance(x, EntryPriceAt(x.actions, n - 1)) == total
  }

  /** Managing a trade only logs exits, the first at a positive price. */
  lemma {:induction false} ManagedExits(trades: seq<DataPoint>, x: Account, candles: seq<Candle>, p: real)
    requires |candles| > 1 && candles[|candles| - 1].close > 0.0 && x.posLongSize > 0.0 && x == WithRates(x)
    requires |trades| > 0 && OpenEntry(LastTrade(trades), x.posLongSize)
    requires |candles| - 1 !in x.actions
    ensures var y, rel := Managed(trades, x, candles).1, |candles| - 1;
            && ExitsOnly(x, y, rel, p)
            && (|ActionsAt(y.actions, rel)| > 0 ==> ActionsAt(y.actions, rel)[0].price > 0.0)
  {
    var rel := |candles| - 1;
    var e := LastTrade(trades);
    if Expired(e, rel) || Stopped(e, candles[rel]) {
      ManagedCloses(trades, x, candles);
      var kind := if Expired(e, rel) then Max else SL;
      var price := if Expired(e, rel) then candles[rel].close else e.slPrice;
      OneExit(x, price, 100.0, -1.0, rel, kind, p);
      ExitPricePositive(x, price);
    } else if e.multiTPs.value == [] {
      ManagedWaits(trades, x, candles);
    } else {
      var ps := e.multiTPs.value;
      var d: nat :| Covers(ps, d, x.posLongSize);
      var f := ReachExists(ps, d, candles[rel].high);
      ManagedFires(trades, x, candles, ps, d, f);
      ManyExits(Book(trades, e.(multiTPs := Some(DoneUpTo(ps, f))), x), DoneRange(ps, d, f), rel, p);
      if d < f {
        assert Rung(ps, d, d) && DoneRange(ps, d, f)[0].price == ps[d].price;
        ExitPricePositive(x, ps[d].price);
      }
    }
  }

  lemma {:induction false} ExitPricePositive(x: Account, price: real)
    requires x == WithRates(x) && price > 0.0
    ensures ExitPrice(x, price) > 0.0
  {
  }

  lemma {:induction false} KeptAll(acts: seq<Action>, p: real)
    requires |acts| > 0 ==> acts[0].price > 0.0 && (acts[0].kind == Enter || IsExit(acts[0]))
    ensures Kept(RowsOf(acts, p)) == RowsOf(acts, p)
  {
    FirstRow(acts, p);
  }

  lemma {:induction false} FirstRow(acts: seq<Action>, p: real)
    ensures |RowsOf(acts, p)| == |acts| && (|acts| > 0 ==> RowsOf(acts, p)[0] == RowOf(acts[0], p))
  {
    if |acts| == 0 {
    } else {
      FirstRow(acts[..|acts| - 1], p);
    }
  }

  /** The trading part of one candle keeps the balance, and none of its rows is dropped. */
  lemma {:induction false} TradeBalances(trades: seq<DataPoint>, x: Account, pl: seq<nat>, candles: seq<Candle>,
                                         risk: real, lev: int, params: Params, total: real)
    requires TradeSafe(trades, x, pl, candles, params) && Priceable(candles) && x == WithRates(x)
    requires LogOk(x.actions, |candles| - 1) && forall i :: 0 <= i < |pl| ==> 1 <= pl[i]
    requires x.posLongSize >= 0.0 && (x.posLongSize > 0.0 ==> MayManage(trades, x, pl, |candles| - 1))
    requires Balanced(x, |candles| - 1, total)
    ensures var y, rel := Trade(trades, x, pl, candles, risk, lev, params).1, |candles| - 1;
            && Kept(Report(y.actions, rel)) == Report(y.actions, rel)
            && Balanced(y, |candles|, total + NetOf(Report(y.actions, rel)))
  {
    var rel := |candles| - 1;
    var y := Trade(trades, x, pl, candles, risk, lev, params).1;
    assert rel !in x.actions;
    if x.posLongSize > 0.0 {
      OpenIsManaged(trades, x, pl, candles, risk, lev, params);
      var p := EntryPriceAt(x.actions, rel - 1);
      ManagedExits(trades, x, candles, p);
      ExitsBalance(x, y, rel, p, total);
    } else {
      var pivot := EntryPivot(trades, LatestActions(x.actions, rel - 1), pl, candles, params);
      if y != x {
        EntryBalances(trades, x, pivot.value, candles, risk, lev, params, total);
      } else {
        assert ActionsAt(y.actions, rel) == [];
      }
    }
  }

  /** Exits leave the entry price in force, so the candle's rows are reckoned at it. */
  lemma {:induction false} ExitsReport(x: Account, y: Account, rel: nat, p: real)
    requires rel > 0 && ExitsOnly(x, y, rel, p) && p == EntryPriceAt(x.actions, rel - 1)
    ensures EntryPriceAt(y.actions, rel) == p && Report(y.actions, rel) == RowsOf(ActionsAt(y.actions, rel), p)
  {
    EntryPriceFrame(x.actions, y.actions, rel - 1);
    EntryPricePersists(y.actions, rel - 1, rel);
  }

  lemma {:induction false} BalancedFrom(y: Account, n: int, p: real, total: real)
    requires Balance(y, p) == total && EntryPriceAt(y.actions, n - 1) == p
    ensures Balanced(y, n, total)
  {
  }

  lemma {:induction false} ExitsBalance(x: Account, y: Account, rel: nat, p: real, total: real)
    requires rel > 0 && ExitsOnly(x, y, rel, p) && rel !in x.actions && Balance(x, p) == total
    requires p == EntryPriceAt(x.actions, rel - 1)
    requires |ActionsAt(y.actions, rel)| > 0 ==> ActionsAt(y.actions, rel)[0].price > 0.0
    ensures Kept(Report(y.actions, rel)) == Report(y.actions, rel)
    ensures Balanced(y, rel + 1, total + NetOf(Report(y.actions, rel)))
  {
    ExitsReport(x, y, rel, p);
    var acts := ActionsAt(y.actions, rel);
    KeptAll(acts, p);
    ExitsTotal(x, y, rel, p);
    BalancedFrom(y, rel + 1, p, total + NetOf(RowsOf(acts, p)));
  }

  lemma {:induction false} ExitsTotal(x: Account, y: Account, rel: int, p: real)
    requires ExitsOnly(x, y, rel, p) && rel !in x.actions
    ensures Balance(y, p) == Balance(x, p) + NetOf(RowsOf(ActionsAt(y.actions, rel), p))
  {
    assert NetOf(RowsOf(ActionsAt(x.actions, rel), p)) == 0.0;
  }

  lemma {:induction false} EntryBalances(trades: seq<DataPoint>, x: Account, entry: nat, candles: seq<Candle>,
                                         risk: real, lev: int, params: Params, total: real)
    requires 1 <= entry && entry < |candles| && Buyable(x, candles) && Priceable(candles) && x == WithRates(x)
    requires x.posLongSize == 0.0 && x.availableEquity == total && |candles| - 1 !in x.actions
    ensures var y, rel := Entered(trades, x, entry, candles, risk, lev, params).1, |candles| - 1;
            y != x ==> && Kept(Report(y.actions, rel)) == Report(y.actions, rel)
                       && Balanced(y, |candles|, total + NetOf(Report(y.actions, rel)))
  {
    var rel := |candles| - 1;
    var e := EntryRecord(trades, entry, candles, params);
    var close := candles[rel].close;
    var cap := CalcEntry(close, e.slPrice, risk, x.availableEquity, lev).0;
    var y := Entered(trades, x, entry, candles, risk, lev, params).1;
    if !TooSmall(cap) {
      SizePositive(cap, close);
      BuyKeepsBalance(x, close, e.slPrice, risk, lev, rel, PointsIn(e));
      var acts := ActionsAt(y.actions, rel);
      assert |acts| == 1 && acts[0].kind == Enter && acts[0].price == EntryPrice(x, close);
      assert HasEnter(acts) && EntryPriceAt(y.actions, rel) == EntryPrice(x, close);
      assert More(ORDER_SLIPPAGE_PERC, close) > 0.0;
      KeptAll(acts, EntryPrice(x, close));
      assert acts[..0] == [] && NetOf(RowsOf(acts, EntryPrice(x, close))) == 0.0;
    }
  }

  lemma {:induction false} LinkBalances(s: State, s': State, candles: seq<Candle>, risk: real, lev: int, ml: Params,
                                        rel: int, total: real)
    requires Link(s, s', candles, risk, lev, ml) && rel + 1 == |candles|
    requires Balanced(s.account, rel, total)
    ensures var y := s'.account;
            && Kept(Report(y.actions, rel)) == Report(y.actions, rel)
            && Balanced(y, rel + 1, total + NetOf(Report(y.actions, rel)))
  {
    TradeBalances(s.trades, WithRates(s.account), s'.pivots.pl, candles, risk, lev, s'.schedule.params, total);
  }

  /** The rows of candle i of a run are kept, and it moves the balance by their net result. */
  lemma {:induction false} RunCandleBalances(u: Setup, ins: seq<Input>, ss: seq<State>, i: nat, total: real)
    requires IsRun(u, ins, ss) && i < |ins| && Balanced(ss[i].account, i, total)
    ensures var y := ss[i + 1].account;
            && Kept(Report(y.actions, i)) == Report(y.actions, i)
            && Balanced(y, i + 1, total + NetOf(Report(y.actions, i)))
  {
    hide Moves, Link, Inv, Kept, Report, Balanced;
    RunLinks(u, ins, ss, i);
    LinkBalances(ss[i], ss[i + 1], CandlesOf(ins[..i + 1]), u.risk, u.lev, ins[i].ml, i, total);
  }

  lemma {:induction false} CollectedNet(ss: seq<State>, i: nat)
    requires i + 1 < |ss| && Kept(Report(ss[i + 1].account.actions, i)) == Report(ss[i + 1].account.actions, i)
    ensures NetOf(Collected(ss, i + 1)) == NetOf(Collected(ss, i)) + NetOf(Report(ss[i + 1].account.actions, i))
  {
    hide Kept, Report;
    NetOfConcat(Collected(ss, i), Report(ss[i + 1].account.actions, i));
  }

  lemma {:induction false} InitialBalance(u: Setup)
    ensures Balanced(Initial(u).account, 0, u.equity)
  {
  }

  /** After every candle of every run the money balances. */
  lemma {:induction false} RunBalances(u: Setup, ins: seq<Input>, ss: seq<State>, n: nat)
    requires IsRun(u, ins, ss) && n <= |ins|
    ensures Balanced(ss[n].account, n, u.equity + NetOf(Collected(ss, n)))
  {
    hide Moves, Kept, Report, Balanced, Initial;
    if n == 0 {
      InitialBalance(u);
      assert NetOf(Collected(ss, 0)) == 0.0;
    } else {
      var i := n - 1;
      RunBalances(u, ins, ss, i);
      RunCandleBalances(u, ins, ss, i, u.equity + NetOf(Collected(ss, i)));
      CollectedNet(ss, i);
    }
  }

  /** Whenever a run is flat, total equity less the initial account size is exactly the sum of
      Profit - TotalFees over all exit rows collected so far. */
  lemma {:induction false} FlatEquityIsTheLog(u: Setup, ins: seq<Input>, ss: seq<State>, n: nat)
    requires IsRun(u, ins, ss) && n <= |ins| && ss[n].account.posLongSize == 0.0
    ensures ss[n].account.totalEquity - u.equity == NetOf(Collected(ss, n))
  {
    hide Moves, Collected, OpenEntry, MayManage, LogOk, PivotRuns.Run;
    RunKeepsInv(u, ins, ss, n);
    RunBalances(u, ins, ss, n);
  }
}
