/** What an entry of strat1 leaves behind in every run, in the source's own numbers: the stored record, the capital
    committed, cash, position, equity and the logged action. */
module Entries {
  import opened Records
  import opened Executor
  import opened ExecutorLaws
  import opened EntryLog
  import opened Strategy
  import opened Ladder
  import opened StrategyRuns
  import opened TradeTheorems
  import opened LossBound
  import opened EntryDecision

  // ---------- the record ----------

  /** The first candle after p whose high exceeds that of p. */
  ghost predicate ConfirmedAt(candles: seq<Candle>, p: nat, a: nat)
    requires p < |candles|
  {
    && p < a < |candles| && candles[a].high > candles[p].high
    && forall j :: p < j < a ==> candles[j].high <= candles[p].high
  }

  /** An earlier record names the same pivot. */
  ghost predicate UsedBefore(trades: seq<DataPoint>, p: nat) {
    exists i :: 0 <= i < |trades| && trades[i].entryLastPLIndex == p
  }

  /** A record whose pivot p was confirmed by candle a, stored on candle k: the deadline counts from a, the stop is
      reckoned from the close of k. */
  function DatedRecord(candles: seq<Candle>, p: nat, a: nat, k: nat, params: Params, points: seq<MultiTPPoint>)
    : DataPoint
    requires a < |candles| && k < |candles|
  {
    DataPoint((1.0 - params.slPerc / 100.0) * candles[k].close, 0.0, Some(points), candles[a].close, p, k,
              a + params.maxDurationCandles, 0, false, 0.0, 0.0, 0.0, Nothing)
  }

  function EmptyRecord(k: nat): DataPoint {
    DataPoint(0.0, 0.0, Some([]), 0.0, 0, k, 0, 0, false, 0.0, 0.0, 0.0, Nothing)
  }

  /** The record is dated if its pivot was not used before and a later candle exceeded its high, and empty if not. */
  ghost predicate IsRecord(candles: seq<Candle>, trades: seq<DataPoint>, p: nat, k: nat, params: Params, e: DataPoint)
    requires p < |candles| && k < |candles|
  {
    if exists a :: ConfirmedAt(candles, p, a) && !UsedBefore(trades, p)
    then e.multiTPs.Some? && forall a :: ConfirmedAt(candles, p, a) ==>
           e == DatedRecord(candles, p, a, k, params, e.multiTPs.value)
    else e == EmptyRecord(k)
  }

  /** The points logEntry lists: one for each target, priced from the close. */
  ghost predicate ListedPoints(points: Option<seq<MultiTPPoint>>, tpMap: Option<seq<Target>>, close: real) {
    if tpMap.None? then points.None?
    else
      && points.Some? && |points.value| == |tpMap.value|
      && forall i :: 0 <= i < |tpMap.value| ==>
           points.value[i] == MultiTPPoint(i + 1, false, TargetAt(close, tpMap.value[i].profitPerc),
                                           tpMap.value[i].closePerc, 0.0, |tpMap.value|)
  }

  /** Every call of logEntry, whatever it is asked for: with a confirmed unused pivot p, confirmed by candle a, the
      stop and the target as fractions of the current close, trailing as given; target and trailing stay zero unless
      positive. */
  lemma {:induction false} LoggedIs(rel: nat, p: nat, candles: seq<Candle>, dataPoints: seq<DataPoint>,
                                    maxDuration: int, slPerc: real, tpPerc: real, startTrailPerc: real,
                                    trailingPerc: real, tpMap: Option<seq<Target>>)
    requires p < |candles| && rel < |candles|
    ensures var r := Logged(rel, p, candles, dataPoints, maxDuration, slPerc, tpPerc, startTrailPerc, trailingPerc,
                            tpMap);
            if exists a :: ConfirmedAt(candles, p, a) && !UsedBefore(dataPoints, p)
            then forall a: nat :: ConfirmedAt(candles, p, a) ==>
                   && r == DataPoint(slPerc * candles[rel].close,
                                     if tpPerc > 0.0 then tpPerc * candles[rel].close else 0.0, r.multiTPs,
                                     candles[a].close, p, a, a + maxDuration, 0, false,
                                     if startTrailPerc > 0.0 then startTrailPerc else 0.0,
                                     if trailingPerc > 0.0 then trailingPerc else 0.0, 0.0, Nothing)
                   && ListedPoints(r.multiTPs, tpMap, candles[a].close)
            else r == DataPoint(0.0, 0.0, None, 0.0, 0, 0, 0, 0, false, 0.0, 0.0, 0.0, Nothing)
  {
    hide PointsOf, ListedPoints;
    var a := FirstHigher(candles, p, p + 1);
    assert Duplicate(dataPoints, p) <==> UsedBefore(dataPoints, p);
    if a.Some? {
      assert ConfirmedAt(candles, p, a.value);
      ListedAre(tpMap, candles[a.value].close);
    }
    forall b: nat | ConfirmedAt(candles, p, b) ensures a == Some(b) {
      assert candles[b].high > candles[p].high;
    }
  }

  lemma {:induction false} ListedAre(tpMap: Option<seq<Target>>, close: real)
    ensures ListedPoints(if tpMap.None? then None else Some(PointsOf(tpMap.value, close)), tpMap, close)
  {
    hide PointsOf, TargetAt;
    if tpMap.Some? {
      PointsAre(tpMap.value, close);
    }
  }

  lemma {:induction false} EnteredRecord(trades: seq<DataPoint>, x: Account, p: nat, candles: seq<Candle>, risk: real,
                                         lev: int, params: Params)
    requires p < |candles| && Buyable(x, candles)
    ensures var r := Entered(trades, x, p, candles, risk, lev, params).0;
            && |r| == |trades| + 1 && r[..|trades|] == trades
            && IsRecord(candles, trades, p, |candles| - 1, params, r[|trades|])
  {
    hide CalcEntry, WithSizes, SortByPrice;
    var a, k := FirstHigher(candles, p, p + 1), |candles| - 1;
    assert Duplicate(trades, p) <==> UsedBefore(trades, p);
    if a.Some? {
      assert ConfirmedAt(candles, p, a.value);
    }
    forall b: nat | ConfirmedAt(candles, p, b) ensures a == Some(b) {
      assert candles[b].high > candles[p].high;
    }
    EmptyPoints();
  }

  lemma {:induction false} EmptyPoints()
    ensures forall size: real :: CompletedTPs([], size) == []
  {
  }

  /** The record every flat call stores, whether or not it buys. */
  lemma {:induction false} StoredRecordIs(u: Setup, ins: seq<Input>, ss: seq<State>, k: nat)
    requires IsRun(u, ins, ss) && k < |ins| && !Open(ss[k]) && ss[k + 1].trades != ss[k].trades
    ensures |ss[k + 1].pivots.pl| > 0 && ss[k + 1].pivots.pl[|ss[k + 1].pivots.pl| - 1] < k
    ensures |ss[k + 1].trades| == |ss[k].trades| + 1 && ss[k + 1].trades[..|ss[k].trades|] == ss[k].trades
    ensures IsRecord(CandlesOf(ins[..k + 1]), ss[k].trades, ss[k + 1].pivots.pl[|ss[k + 1].pivots.pl| - 1], k,
                     ss[k + 1].schedule.params, ss[k + 1].trades[|ss[k].trades|])
  {
    hide Moves, Link, Inv, Entered, IsRecord, Qualifies;
    var candles := CandlesOf(ins[..k + 1]);
    RunLinks(u, ins, ss, k);
    RunListed(u, ins, ss, k + 1);
    LinkStoresIff(ss[k], ss[k + 1], candles, u.risk, u.lev, ins[k].ml);
    LinkHasRoom(ss[k], ss[k + 1], candles, u.risk, u.lev, ins[k].ml);
    QualifiesListed(candles, ss[k + 1].pivots.pl, ss[k + 1].schedule.params.pivotLowsToEnter,
                    LastBreak(ss[k].trades) + WaitBy(LatestActions(ss[k].account.actions, |candles| - 2),
                                                     ss[k + 1].schedule.params.slCooldownCandles));
    EnteredRecord(ss[k].trades, WithRates(ss[k].account), ss[k + 1].pivots.pl[|ss[k + 1].pivots.pl| - 1], candles,
                  u.risk, u.lev, ss[k + 1].schedule.params);
  }

  lemma {:induction false} QualifiesListed(candles: seq<Candle>, pl: seq<nat>, count: int, after: int)
    requires Listed(candles, pl) && Qualifies(candles, pl, count, after)
    ensures |pl| > 0 && pl[|pl| - 1] + 1 < |candles|
  {
  }

  /** The calls of a run can reckon an entry: the close is positive, and a flat account has all its equity in cash. */
  lemma {:induction false} LinkHasRoom(s: State, s': State, candles: seq<Candle>, risk: real, lev: int, ml: Params)
    requires Link(s, s', candles, risk, lev, ml)
    ensures Buyable(WithRates(s.account), candles) && candles[|candles| - 1].close > 0.0
    ensures |candles| - 1 !in s.account.actions && s.account.posLongSize >= 0.0
    ensures s.account.posLongSize == 0.0 ==> s.account.totalEquity == s.account.availableEquity
    ensures GoodTargets(s'.schedule.params.tpMap) && Priceable(candles)
  {
  }

  // ---------- capital ----------

  /** The capital is within the leverage, and losing the distance to the stop on it stays within the risk. */
  ghost predicate Affords(c: real, cash: real, close: real, sl: real, risk: real, lev: int)
    requires close > 0.0
  {
    c <= cash * (lev as real) && (close - sl) / close * c <= risk / 100.0 * cash
  }

  /** The capital a buy commits: the largest that can be afforded, if the stop is below the close, or at it with no
      negative risk; otherwise a negative number. */
  ghost predicate IsCapital(cap: real, cash: real, close: real, sl: real, risk: real, lev: int)
    requires close > 0.0
  {
    if sl > close || (sl == close && risk / 100.0 * cash < 0.0) then cap == -1.0
    else Affords(cap, cash, close, sl, risk, lev) && forall c :: Affords(c, cash, close, sl, risk, lev) ==> c <= cap
  }

  lemma {:induction false} CapitalIs(cash: real, close: real, sl: real, risk: real, lev: int)
    requires close > 0.0
    ensures IsCapital(CalcEntry(close, sl, risk, cash, lev).0, cash, close, sl, risk, lev)
  {
    hide CalcEntry;
    CapIsLargest(close, sl, risk, cash, lev, cash * (lev as real), Share(risk, cash));
    forall c ensures Affords(c, cash, close, sl, risk, lev)
                <==> Allowed(c, cash * (lev as real), (close - sl) / close, Share(risk, cash)) {
    }
  }

  // ---------- the account ----------

  /** The price paid: 0.15 percent above the close. */
  function Paid(close: real): real {
    close * 1.0015
  }

  /** The size bought: the capital less 0.075 percent, at the price paid. */
  function Size(cap: real, close: real): real
    requires close > 0.0
  {
    (cap * 0.99925) / Paid(close)
  }

  /** What the log calls the risked equity: the risk percentage of the cash left. */
  function Risked(risk: real, cash: real): real {
    risk / 100.0 * cash
  }

  /** The cash left. Total equity stays at the cash there was: neither fee nor slippage is charged to it. */
  function AfterBuy(x: Account, cap: real, close: real, sl: real, risk: real, k: nat): Account
    requires close > 0.0
  {
    var cash := x.availableEquity - cap * 0.99925;
    x.(posLongSize := Size(cap, close), availableEquity := cash, totalEquity := x.availableEquity,
       lastEntryEquity := cap * 0.99925,
       actions := x.actions[k := [Action(Enter, Paid(close), sl, Size(cap, close), Risked(risk, cash), cap * 0.00075)]])
  }

  lemma {:induction false} BuyIs(x: Account, close: real, sl: real, risk: real, lev: int, k: nat,
                                 points: seq<MultiTPPoint>)
    requires close > 0.0 && x == WithRates(x) && k !in x.actions && EntryPrice(x, close) != 0.0
    ensures var cap := CalcEntry(close, sl, risk, x.availableEquity, lev).0;
            Bought(x, close, sl, risk, lev, k, points, true).0
            == if cap <= 10.0 then x else AfterBuy(x, cap, close, sl, risk, k)
  {
    hide CalcEntry, CompletedTPs;
    var cap := CalcEntry(close, sl, risk, x.availableEquity, lev).0;
    assert EntryPrice(x, close) == Paid(close);
    assert EntryCap(x, cap) == cap * 0.99925 && Share(0.075, cap) == cap * 0.00075;
    var cash := x.availableEquity - cap * 0.99925;
    var act := Action(Enter, Paid(close), sl, Size(cap, close), Risked(risk, cash), cap * 0.00075);
    assert ActionsAt(x.actions, k) + [act] == [act];
    var y := Bought(x, close, sl, risk, lev, k, points, true).0;
    if cap > 10.0 {
      assert y.posLongSize == Size(cap, close) && y.availableEquity == cash;
      assert Share(risk, cash) == Risked(risk, cash);
      assert y.actions == x.actions[k := [act]];
      assert y.posShortSize == x.posShortSize && y.totalEquity == x.availableEquity;
      assert y.lastEntryEquity == cap * 0.99925;
      assert y.orderSlippagePerc == x.orderSlippagePerc && y.exchangeTradeFeePerc == x.exchangeTradeFeePerc;
      assert y == AfterBuy(x, cap, close, sl, risk, k);
    }
  }

  /** What a stored record does to the account of the next state: a buy if the capital exceeds 10, nothing if not. */
  ghost predicate BuysOrNot(x: Account, y: Account, candle: Candle, sl: real, risk: real, lev: int, k: nat)
    requires candle.close > 0.0
  {
    exists cap: real :: IsCapital(cap, x.availableEquity, candle.close, sl, risk, lev)
      && y == if cap <= 10.0 then x else AfterBuy(x, cap, candle.close, sl, risk, k)
  }

  lemma {:induction false} EnteredBuys(trades: seq<DataPoint>, x: Account, p: nat, candles: seq<Candle>, risk: real,
                                       lev: int, params: Params, k: nat)
    requires p < |candles| && Buyable(x, candles) && x == WithRates(x) && k + 1 == |candles| && candles[k].close > 0.0
    requires k !in x.actions
    ensures var r := Entered(trades, x, p, candles, risk, lev, params);
            |r.0| == |trades| + 1 && BuysOrNot(x, r.1, candles[k], r.0[|trades|].slPrice, risk, lev, k)
  {
    hide CalcEntry, Bought, EntryRecord, IsCapital, AfterBuy;
    var e := EntryRecord(trades, p, candles, params);
    CapitalIs(x.availableEquity, candles[k].close, e.slPrice, risk, lev);
    BuyIs(x, candles[k].close, e.slPrice, risk, lev, k, PointsIn(e));
  }

  /** The account after every flat call of a run: untouched unless a record is stored, and then bought with the
      capital that is the largest allowed, if that exceeds 10. */
  lemma {:induction false} FlatCallBuys(u: Setup, ins: seq<Input>, ss: seq<State>, k: nat)
    requires IsRun(u, ins, ss) && k < |ins| && !Open(ss[k])
    ensures ins[k].candle.close > 0.0
    ensures var x := ss[k].account.(orderSlippagePerc := 0.15, exchangeTradeFeePerc := 0.075);
            if ss[k + 1].trades == ss[k].trades then ss[k + 1].account == x
            else |ss[k + 1].trades| > 0
                 && BuysOrNot(x, ss[k + 1].account, ins[k].candle, ss[k + 1].trades[|ss[k + 1].trades| - 1].slPrice,
                              u.risk, u.lev, k)
  {
    hide Moves, Link, Inv, Entered, Qualifies, BuysOrNot;
    var candles := CandlesOf(ins[..k + 1]);
    RunLinks(u, ins, ss, k);
    RunListed(u, ins, ss, k + 1);
    LinkStoresIff(ss[k], ss[k + 1], candles, u.risk, u.lev, ins[k].ml);
    LinkHasRoom(ss[k], ss[k + 1], candles, u.risk, u.lev, ins[k].ml);
    if ss[k + 1].trades == ss[k].trades {
      LinkStoresNothing(ss[k], ss[k + 1], candles, u.risk, u.lev, ins[k].ml);
    } else {
      EnteredBuys(ss[k].trades, WithRates(ss[k].account), ss[k + 1].pivots.pl[|ss[k + 1].pivots.pl| - 1], candles,
                  u.risk, u.lev, ss[k + 1].schedule.params, k);
    }
  }

  lemma {:induction false} LinkStoresNothing(s: State, s': State, candles: seq<Candle>, risk: real, lev: int,
                                             ml: Params)
    requires Link(s, s', candles, risk, lev, ml) && !Open(s) && s'.trades == s.trades
    ensures s'.account == WithRates(s.account)
  {
    hide EntryPivot, LogOk, Priceable, Bought, EntryRecord;
  }

  /** An entry leaves total equity where it was. */
  lemma {:induction false} EntryKeepsEquity(u: Setup, ins: seq<Input>, ss: seq<State>, k: nat)
    requires IsRun(u, ins, ss) && k < |ins| && !Open(ss[k])
    ensures ss[k + 1].account.totalEquity == ss[k].account.totalEquity
  {
    hide Moves, Link, Inv, IsCapital;
    FlatCallBuys(u, ins, ss, k);
    RunLinks(u, ins, ss, k);
    LinkHasRoom(ss[k], ss[k + 1], CandlesOf(ins[..k + 1]), u.risk, u.lev, ins[k].ml);
  }

  // ---------- the take-profit points ----------

  /** The price a percentage above the close. */
  function TargetAt(close: real, profitPerc: real): real {
    close * (1.0 + profitPerc / 100.0)
  }

  function PartOf(closePerc: real, size: real): real {
    closePerc / 100.0 * size
  }

  /** The points of a new ladder: one for each target, priced from the close of the confirming candle, each sized
      by its percentage of the position, the last by what is left. */
  ghost predicate LadderIs(points: seq<MultiTPPoint>, tpMap: seq<Target>, close: real, size: real) {
    && |points| == |tpMap|
    && (forall i :: 0 <= i < |points| ==>
          && points[i].price == TargetAt(close, tpMap[i].profitPerc)
          && points[i].order == i + 1 && points[i].total == |tpMap| && !points[i].isDone
          && points[i].closePerc == tpMap[i].closePerc)
    && (forall i :: 0 <= i < |points| - 1 ==> points[i].closeSize == PartOf(tpMap[i].closePerc, size))
    && (|points| > 0 ==> SizeFrom(points, 0) == size)
  }

  lemma {:induction false} SizesAre(ps: seq<MultiTPPoint>, size: real, remaining: real)
    ensures forall i :: 0 <= i < |ps| - 1 ==>
              WithSizes(ps, size, remaining)[i].closeSize == PartOf(ps[i].closePerc, size)
  {
    if |ps| <= 1 {
    } else {
      PartIs(ps[0].closePerc, size);
      SizesAre(ps[1..], size, remaining - Share(ps[0].closePerc, size));
    }
  }

  lemma {:induction false} PartIs(closePerc: real, size: real)
    ensures Share(closePerc, size) == PartOf(closePerc, size)
  {
  }

  lemma {:induction false} PointsAre(tpMap: seq<Target>, close: real)
    ensures |PointsOf(tpMap, close)| == |tpMap|
    ensures forall i :: 0 <= i < |tpMap| ==>
              PointsOf(tpMap, close)[i]
              == MultiTPPoint(i + 1, false, TargetAt(close, tpMap[i].profitPerc), tpMap[i].closePerc, 0.0, |tpMap|)
  {
    forall i | 0 <= i < |tpMap|
      ensures TargetPrice(close, tpMap[i].profitPerc) == TargetAt(close, tpMap[i].profitPerc) {
    }
  }

  lemma {:induction false} NewLadderIs(tpMap: seq<Target>, close: real, size: real)
    requires GoodTargets(tpMap) && close > 0.0
    ensures var points := CompletedTPs(PointsOf(tpMap, close), size);
            if |tpMap| > 0 && TargetAt(close, tpMap[0].profitPerc) > 0.0 then LadderIs(points, tpMap, close, size)
            else points == []
  {
    hide GoodTargets, SortByPrice, WithSizes, SizeFrom, StrictlyByPrice, PointsOf, TargetAt, PartOf;
    PointsAre(tpMap, close);
    var ps := PointsOf(tpMap, close);
    PointsAscend(tpMap, close);
    SortKeepsOrdered(ps);
    if |ps| > 0 {
      SizesAddUp(ps, size, size);
      SizesAre(ps, size, size);
      SizesKeepRest(ps, size, size);
    }
  }

  /** The points of the record of every entry whose pivot was confirmed. */
  lemma {:induction false} EntryPoints(u: Setup, ins: seq<Input>, ss: seq<State>, k: nat, p: nat, a: nat)
    requires IsRun(u, ins, ss) && k < |ins| && !Open(ss[k]) && Open(ss[k + 1])
    requires |ss[k + 1].pivots.pl| > 0 && p == ss[k + 1].pivots.pl[|ss[k + 1].pivots.pl| - 1] <= k
    requires ConfirmedAt(CandlesOf(ins[..k + 1]), p, a) && !UsedBefore(ss[k].trades, p)
    ensures |ss[k + 1].trades| > 0 && ss[k + 1].trades[|ss[k + 1].trades| - 1].multiTPs.Some?
    ensures var points := ss[k + 1].trades[|ss[k + 1].trades| - 1].multiTPs.value;
            var tpMap, close := ss[k + 1].schedule.params.tpMap, ins[a].candle.close;
            if |tpMap| > 0 && TargetAt(close, tpMap[0].profitPerc) > 0.0
            then LadderIs(points, tpMap, close, ss[k + 1].account.posLongSize) else points == []
  {
    hide Moves, Link, Inv, Entered, LadderIs, CompletedTPs, Bought, ConfirmedAt, UsedBefore, TargetAt;
    var candles := CandlesOf(ins[..k + 1]);
    RunLinks(u, ins, ss, k);
    var q := LinkEnters(ss[k], ss[k + 1], candles, u.risk, u.lev, ins[k].ml);
    LinkHasRoom(ss[k], ss[k + 1], candles, u.risk, u.lev, ins[k].ml);
    assert a <= k && ins[a].candle == candles[a] && candles[a].close > 0.0 by { ConfirmedLater(candles, p, a); }
    EnteredPoints(ss[k].trades, WithRates(ss[k].account), p, a, candles, u.risk, u.lev, ss[k + 1].schedule.params);
    NewLadderIs(ss[k + 1].schedule.params.tpMap, candles[a].close, ss[k + 1].account.posLongSize);
  }

  lemma {:induction false} ConfirmedLater(candles: seq<Candle>, p: nat, a: nat)
    requires p < |candles| && ConfirmedAt(candles, p, a) && Priceable(candles)
    ensures a < |candles| && candles[a].close > 0.0
  {
  }

  lemma {:induction false} EnteredPoints(trades: seq<DataPoint>, x: Account, p: nat, a: nat, candles: seq<Candle>,
                                         risk: real, lev: int, params: Params)
    requires p < |candles| && Buyable(x, candles) && x.posLongSize <= 0.0
    requires ConfirmedAt(candles, p, a) && !UsedBefore(trades, p)
    requires Entered(trades, x, p, candles, risk, lev, params).1.posLongSize > 0.0
    ensures var r := Entered(trades, x, p, candles, risk, lev, params);
            |r.0| > 0 && r.0[|r.0| - 1].multiTPs
                         == Some(CompletedTPs(PointsOf(params.tpMap, candles[a].close), r.1.posLongSize))
  {
    hide CompletedTPs, CalcEntry, PointsOf;
    assert Duplicate(trades, p) <==> UsedBefore(trades, p);
    assert candles[a].high > candles[p].high;
    assert FirstHigher(candles, p, p + 1) == Some(a);
  }
}
