/** When a trade of a run sells nothing below its stop: a condition on its entry, its first candle and its
    closing candle. */
module ExitsAtStop {
  import opened Records
  import opened Executor
  import opened TrendBreak
  import opened EntryLog
  import opened Strategy
  import opened Ladder
  import opened StrategyRuns
  import opened TradeTheorems
  import opened LossBound
  import opened RunLoss

  /** A new position has no take-profit points, or a ladder of which none is done. */
  ghost predicate NewPoints(ps: seq<MultiTPPoint>) {
    ps == [] || Rungs(ps, 0)
  }

  lemma {:induction false} LinkBuysLadder(s: State, s': State, candles: seq<Candle>, risk: real, lev: int, ml: Params)
    requires Link(s, s', candles, risk, lev, ml) && !Open(s) && Open(s')
    ensures |s'.trades| > 0 && NewPoints(PointsIn(LastTrade(s'.trades)))
  {
    hide Entered, LogOk, MoneyOk, Traded, NewPoints;
    var p := LinkEnters(s, s', candles, risk, lev, ml);
    assert GoodTargets(s'.schedule.params.tpMap);
    EnteredLadder(s.trades, WithRates(s.account), p, candles, risk, lev, s'.schedule.params);
  }

  lemma {:induction false} EnteredLadder(trades: seq<DataPoint>, x: Account, entry: nat, candles: seq<Candle>,
                                         risk: real, lev: int, params: Params)
    requires entry < |candles| && Buyable(x, candles) && Priceable(candles) && AtRates(x) && GoodTargets(params.tpMap)
    requires x.posLongSize <= 0.0 && Entered(trades, x, entry, candles, risk, lev, params).1.posLongSize > 0.0
    ensures var r := Entered(trades, x, entry, candles, risk, lev, params).0;
            |r| > 0 && NewPoints(PointsIn(LastTrade(r)))
  {
    hide CompletedTPs, GoodTargets, CalcEntry, Rungs;
    var close := candles[|candles| - 1].close;
    var e := EntryRecord(trades, entry, candles, params);
    var cap := CalcEntry(close, e.slPrice, risk, x.availableEquity, lev).0;
    assert !TooSmall(cap);
    SizePositive(cap, close);
    NewPointsFit(trades, entry, candles, params, EntryCap(x, cap) / EntryPrice(x, close));
  }

  lemma {:induction false} NewPointsFit(trades: seq<DataPoint>, entry: nat, candles: seq<Candle>, params: Params,
                                        size: real)
    requires entry < |candles| && Priceable(candles) && GoodTargets(params.tpMap) && size > 0.0
    ensures NewPoints(CompletedTPs(PointsIn(EntryRecord(trades, entry, candles, params)), size))
  {
    hide GoodTargets, Rungs;
    var e, a := EntryRecord(trades, entry, candles, params), FirstHigher(candles, entry, entry + 1);
    if PointsIn(e) == [] {
      assert CompletedTPs([], size) == [];
    } else {
      assert e.multiTPs == Some(PointsOf(params.tpMap, candles[a.value].close));
      NewLadder(params.tpMap, candles[a.value].close, size);
      CoversFromStart(CompletedTPs(PointsIn(e), size), size);
    }
  }

  lemma {:induction false} CoversFromStart(ps: seq<MultiTPPoint>, size: real)
    requires ps == [] || Covers(ps, 0, size)
    ensures NewPoints(ps)
  {
  }

  /** The first candle of a trade sells below the stop exactly through a first point below it. */
  lemma {:induction false} FirstCandle(e: DataPoint, rel: nat, c: Candle)
    requires NewPoints(PointsIn(e)) && c.low <= c.high && NoExitBelow(e, c, rel)
    ensures PointsIn(e) == [] || PointsIn(e)[0].price >= e.slPrice || ClosesAll(e, rel, c)
  {
    var ps := PointsIn(e);
    if ps != [] && !ClosesAll(e, rel, c) {
      var f := ReachExists(ps, 0, c.high);
      CandleFires(ps, 0, f, c.high);
      assert Rung(ps, 0, 0);
      assert f > 0 ==> DoneRange(ps, 0, f)[0].price == ps[0].price;
      assert f == 0 ==> ps[0].price > c.high;
    }
  }

  lemma {:induction false} FiredIsPoint(ps: seq<MultiTPPoint>, high: real, p: MultiTPPoint)
    requires p in Fired(ps, high)
    ensures exists j :: 0 <= j < |ps| && ps[j].price == p.price
  {
    var n := |ps| - 1;
    if p in Fired(ps[..n], high) {
      FiredIsPoint(ps[..n], high, p);
      var j :| 0 <= j < n && ps[..n][j].price == p.price;
      assert ps[j].price == p.price;
    } else {
      assert ps[n].price == p.price;
    }
  }

  /** With every point at or above the stop only the deadline can sell below it. */
  lemma {:induction false} LaterCandle(e: DataPoint, e': DataPoint, rel: nat, c: Candle)
    requires e' == e.(multiTPs := e'.multiTPs) && SamePrices(PointsIn(e), PointsIn(e')) && NewPoints(PointsIn(e))
    requires PointsIn(e) == [] || PointsIn(e)[0].price >= e.slPrice || ClosesAll(e, rel, c)
    requires Expired(e, rel) ==> c.close >= e.slPrice
    ensures NoExitBelow(e', c, rel)
  {
    var ps, qs := PointsIn(e), PointsIn(e');
    if !ClosesAll(e, rel, c) {
      forall p | p in Fired(qs, c.high) ensures p.price >= e.slPrice {
        FiredIsPoint(qs, c.high, p);
        var j :| 0 <= j < |qs| && qs[j].price == p.price;
        assert ps[j].price == qs[j].price;
        assert j > 0 ==> ps[0].price < ps[j].price;
      }
    }
  }

  /** The record of a trade on its candles, with the points it was entered with. */
  lemma {:induction false} RecordOn(u: Setup, ins: seq<Input>, ss: seq<State>, k: nat, c: nat, i: nat)
    requires IsRun(u, ins, ss) && c < |ins| && TradeOpen(ss, k, c) && k < i <= c
    ensures |ss[k + 1].trades| > 0 && |ss[i].trades| > 0
    ensures var e, e' := LastTrade(ss[k + 1].trades), LastTrade(ss[i].trades);
            && e' == e.(multiTPs := e'.multiTPs) && SamePrices(PointsIn(e), PointsIn(e')) && NewPoints(PointsIn(e))
            && (ClosesAll(e, i, ins[i].candle) && !Open(ss[c + 1]) ==> i == c)
  {
    hide Moves, Link, Inv, NewPoints, SamePrices;
    RunLinks(u, ins, ss, k);
    LinkBuysLadder(ss[k], ss[k + 1], CandlesOf(ins[..k + 1]), u.risk, u.lev, ins[k].ml);
    RecordStays(u, ins, ss, k + 1, i);
    PointPricesStay(u, ins, ss, k + 1, i);
    OpenCandle(u, ins, ss, i);
    assert i < c ==> Open(ss[i + 1]);
  }

  /** The closing candle, when it is past the deadline, closes at or above the stop; and the first take-profit
      point is not below the stop, unless there is none or the first candle closes the trade. */
  predicate KeepsStop(e: DataPoint, first: nat, firstCandle: Candle, closing: nat, closingCandle: Candle) {
    && (Expired(e, closing) ==> closingCandle.close >= e.slPrice)
    && (PointsIn(e) == [] || PointsIn(e)[0].price >= e.slPrice || ClosesAll(e, first, firstCandle))
  }

  /** A closed trade sells nothing below its stop if and only if its record, its first candle and its closing
      candle keep the stop. */
  lemma {:induction false} ExitsAtStopIff(u: Setup, ins: seq<Input>, ss: seq<State>, k: nat, c: nat)
    requires IsRun(u, ins, ss) && k < c < |ins| && TradeOpen(ss, k, c) && !Open(ss[c + 1])
    requires ins[k + 1].candle.low <= ins[k + 1].candle.high
    ensures |ss[k + 1].trades| > 0
    ensures var e := LastTrade(ss[k + 1].trades);
            (NoneBelow(ins, ss, k + 1, c + 1) <==> KeepsStop(e, k + 1, ins[k + 1].candle, c, ins[c].candle))
  {
    hide Moves, NoExitBelow, SamePrices, NewPoints;
    RecordOn(u, ins, ss, k, c, k + 1);
    RecordOn(u, ins, ss, k, c, c);
    var e := LastTrade(ss[k + 1].trades);
    if NoneBelow(ins, ss, k + 1, c + 1) {
      assert SellsNoLower(ins, ss, k + 1) && SellsNoLower(ins, ss, c);
      FirstCandle(e, k + 1, ins[k + 1].candle);
      DeadlineAtOrAbove(LastTrade(ss[c].trades), ins[c].candle, c);
    }
    if KeepsStop(e, k + 1, ins[k + 1].candle, c, ins[c].candle) {
      forall i | k + 1 <= i < c + 1 ensures SellsNoLower(ins, ss, i) {
        RecordOn(u, ins, ss, k, c, i);
        LaterCandle(e, LastTrade(ss[i].trades), i, ins[i].candle);
      }
    }
  }

  lemma {:induction false} DeadlineAtOrAbove(e: DataPoint, c: Candle, rel: nat)
    requires NoExitBelow(e, c, rel)
    ensures Expired(e, rel) ==> c.close >= e.slPrice
  {
  }

  // ---------- a whole run ----------

  /** Candle k enters a position that candle c closes. */
  ghost predicate IsTrade(ss: seq<State>, k: nat, c: nat)
    requires c + 1 < |ss|
  {
    TradeOpen(ss, k, c) && !Open(ss[c + 1])
  }

  ghost predicate TradeKeepsStop(ins: seq<Input>, ss: seq<State>, k: nat, c: nat)
    requires k < c < |ins| < |ss|
  {
    |ss[k + 1].trades| > 0
    && KeepsStop(LastTrade(ss[k + 1].trades), k + 1, ins[k + 1].candle, c, ins[c].candle)
  }

  ghost predicate AllKeepStop(ins: seq<Input>, ss: seq<State>, n: nat)
    requires n <= |ins| < |ss|
  {
    forall k, c | 0 <= k < c < n && IsTrade(ss, k, c) :: TradeKeepsStop(ins, ss, k, c)
  }

  /** The trade that is open before candle i. */
  lemma {:induction false} TradeAround(u: Setup, ins: seq<Input>, ss: seq<State>, n: nat, i: nat)
    returns (k: nat, c: nat)
    requires IsRun(u, ins, ss) && i < n <= |ins| && Open(ss[i]) && !Open(ss[n])
    ensures k < i <= c < n && IsTrade(ss, k, c)
  {
    hide Moves;
    k := EntryOf(u, ins, ss, i);
    c := i;
    while Open(ss[c + 1])
      invariant i <= c < n && TradeOpen(ss, k, c)
      decreases n - c
    {
      c := c + 1;
    }
  }

  /** A run that is flat has sold nothing below a stop exactly if each of its trades kept its stop. */
  lemma {:induction false} RunSellsAboveIff(u: Setup, ins: seq<Input>, ss: seq<State>, n: nat)
    requires IsRun(u, ins, ss) && n <= |ins| && !Open(ss[n])
    requires forall i :: 0 <= i < |ins| ==> ins[i].candle.low <= ins[i].candle.high
    ensures NoneBelow(ins, ss, 0, n) <==> AllKeepStop(ins, ss, n)
  {
    hide Moves, SellsNoLower, KeepsStop;
    if NoneBelow(ins, ss, 0, n) {
      forall k, c | 0 <= k < c < n && IsTrade(ss, k, c) ensures TradeKeepsStop(ins, ss, k, c) {
        ExitsAtStopIff(u, ins, ss, k, c);
      }
    }
    if AllKeepStop(ins, ss, n) {
      forall i | 0 <= i < n && Open(ss[i]) ensures SellsNoLower(ins, ss, i) {
        var k, c := TradeAround(u, ins, ss, n, i);
        assert TradeKeepsStop(ins, ss, k, c);
        ExitsAtStopIff(u, ins, ss, k, c);
      }
    }
  }

  /** A flat run whose trades all kept their stops has at least initial * (1 - q)^entries. */
  lemma {:induction false} KeptStopsBoundTheLoss(u: Setup, ins: seq<Input>, ss: seq<State>, n: nat, q: real)
    requires IsRun(u, ins, ss) && n <= |ins| && !Open(ss[n]) && AllKeepStop(ins, ss, n) && u.equity > 0.0
    requires forall i :: 0 <= i < |ins| ==> ins[i].candle.low <= ins[i].candle.high
    requires Sane(EXCHANGE_TRADE_FEE_PERC, ORDER_SLIPPAGE_PERC, u.risk, u.lev)
    requires q == MaxLoss(EXCHANGE_TRADE_FEE_PERC, ORDER_SLIPPAGE_PERC, u.risk, u.lev) && 0.0 <= q < 1.0
    ensures ss[n].account.totalEquity == ss[n].account.availableEquity > 0.0
    ensures ss[n].account.totalEquity >= u.equity * Power(1.0 - q, Entries(ss, n))
  {
    hide Moves, MaxLoss, NoneBelow, AllKeepStop, Sane, Power, Entries;
    RunSellsAboveIff(u, ins, ss, n);
    RunLossBounded(u, ins, ss, n, q);
  }
}
