/** One candle of an open trade in every run, in the source's own numbers: what is sold and at which price, what that
    does to cash, position and equity, what is logged, and what becomes of the record. */
module OpenCandles {
  import opened Records
  import opened Executor
  import opened TrendBreak
  import opened Strategy
  import opened Ladder
  import opened StrategyRuns
  import opened TradeTheorems
  import opened LossBound
  import opened RunLoss

  // ---------- what is sold ----------

  /** The deadline has come. */
  predicate DeadlineOn(e: DataPoint, i: nat) {
    e.maxExitIndex != 0 && i >= e.maxExitIndex
  }

  predicate StopReached(e: DataPoint, c: Candle) {
    0.0 < e.slPrice && c.low <= e.slPrice
  }

  /** The point fires on a candle with this high. */
  predicate PointReached(p: MultiTPPoint, high: real) {
    !p.isDone && 0.0 < p.price <= high
  }

  /** The points that fire, in the order of the list. */
  function PointSales(ps: seq<MultiTPPoint>, high: real, i: nat): seq<Fill> {
    if |ps| == 0 then []
    else
      var p := ps[|ps| - 1];
      PointSales(ps[..|ps| - 1], high, i)
      + if PointReached(p, high) then [Fill(p.price, p.closeSize, MultiTP, i)] else []
  }

  /** What candle i sells: at the deadline everything at its close, else at the stop everything at the stop price,
      else the points its high reaches. */
  function SalesOn(e: DataPoint, pos: real, c: Candle, i: nat): seq<Fill> {
    if DeadlineOn(e, i) then [Fill(c.close, pos, Max, i)]
    else if StopReached(e, c) then [Fill(e.slPrice, pos, SL, i)]
    else PointSales(PointsIn(e), c.high, i)
  }

  lemma {:induction false} PointSalesAre(ps: seq<MultiTPPoint>, high: real, i: nat)
    ensures FillsOf(Fired(ps, high), i) == PointSales(ps, high, i)
  {
    if |ps| == 0 {
    } else {
      var front, p := ps[..|ps| - 1], ps[|ps| - 1];
      PointSalesAre(front, high, i);
      assert Hit(p, high) <==> PointReached(p, high);
    }
  }

  lemma {:induction false} SalesAre(e: DataPoint, pos: real, c: Candle, i: nat)
    ensures FillsAt(e, pos, c, i) == SalesOn(e, pos, c, i)
  {
    PointSalesAre(PointsIn(e), c.high, i);
  }

  // ---------- what a sale does ----------

  /** The price received: 0.15 percent below the price of the candle. */
  function Received(price: real): real {
    price * 0.9985
  }

  /** The fee: 0.075 percent of what is received. */
  function ExitFee(size: real, price: real): real {
    size * Received(price) * 0.00075
  }

  /** Cash rises by the proceeds less the fee, the position falls by what is sold, and equity is the cash with the
      rest of the position at the price of the candle. */
  function AfterSale(x: Account, f: Fill): Account {
    var cash := x.availableEquity + f.size * Received(f.price) - ExitFee(f.size, f.price);
    var rest := x.posLongSize - f.size;
    x.(availableEquity := cash, posLongSize := rest, totalEquity := cash + rest * f.price,
       actions := x.actions[f.candle :=
         ActionsAt(x.actions, f.candle) +
         [Action(f.kind, Received(f.price), 0.0, f.size, 0.0, ExitFee(f.size, f.price))]])
  }

  function AfterSales(x: Account, fills: seq<Fill>): Account {
    if |fills| == 0 then x else AfterSale(AfterSales(x, fills[..|fills| - 1]), fills[|fills| - 1])
  }

  /** The rates strat1 trades at, in percent. */
  predicate StratRates(x: Account) {
    x.orderSlippagePerc == 0.15 && x.exchangeTradeFeePerc == 0.075
  }

  lemma {:induction false} SaleIs(x: Account, f: Fill)
    requires StratRates(x) && f.size > 0.0
    ensures ClosedLong(x, f.price, -1.0, f.size, f.candle, f.kind) == AfterSale(x, f)
  {
    assert ExitPrice(x, f.price) == Received(f.price);
    var w := f.size * Received(f.price);
    assert Worth(f.size, ExitPrice(x, f.price)) == w;
    assert Less(0.075, w) == w - w * 0.00075 && Share(0.075, w) == w * 0.00075;
    assert ExitFee(f.size, f.price) == w * 0.00075;
  }

  lemma {:induction false} SalesSettle(x: Account, fills: seq<Fill>)
    requires StratRates(x) && Sized(fills)
    ensures Settled(x, fills) == AfterSales(x, fills) && StratRates(AfterSales(x, fills))
  {
    hide ClosedLong, Received, ExitFee;
    if |fills| == 0 {
    } else {
      SalesSettle(x, fills[..|fills| - 1]);
      SaleIs(AfterSales(x, fills[..|fills| - 1]), fills[|fills| - 1]);
    }
  }

  lemma {:induction false} RatesSet(x: Account)
    ensures StratRates(WithRates(x))
    ensures StratRates(x) ==> WithRates(x) == x
  {
  }

  /** The account after a candle of an open trade is the one before it after the sales of the candle. */
  lemma {:induction false} OpenCandleSells(u: Setup, ins: seq<Input>, ss: seq<State>, i: nat)
    requires IsRun(u, ins, ss) && i < |ins| && Open(ss[i])
    ensures |ss[i].trades| > 0 && i >= 1 && StratRates(ss[i].account)
    ensures var e := ss[i].trades[|ss[i].trades| - 1];
            var sales := SalesOn(e, ss[i].account.posLongSize, ins[i].candle, i);
            ss[i + 1].account == AfterSales(ss[i].account, sales) && Sized(sales)
    ensures StratRates(ss[i + 1].account)
  {
    hide Moves, Link, Inv, Settled, FillsAt, SalesOn, AfterSales, Sized, WithRates;
    RunLinks(u, ins, ss, i);
    OpenHasRates(u, ins, ss, i);
    RatesSet(ss[i].account);
    LinkSettles(ss[i], ss[i + 1], CandlesOf(ins[..i + 1]), u.risk, u.lev, ins[i].ml, i, ins[i].candle);
    var e := ss[i].trades[|ss[i].trades| - 1];
    SalesAre(e, ss[i].account.posLongSize, ins[i].candle, i);
    SalesSettle(ss[i].account, FillsAt(e, ss[i].account.posLongSize, ins[i].candle, i));
  }

  /** Any call leaves the rates of strat1 in the account. */
  lemma {:induction false} OpenHasRates(u: Setup, ins: seq<Input>, ss: seq<State>, n: nat)
    requires IsRun(u, ins, ss) && n <= |ins| && Open(ss[n])
    ensures n >= 1 && StratRates(ss[n].account)
  {
    hide Moves, Link, Inv;
    var k := EntryOf(u, ins, ss, n);
    OpenIsSettledFrom(u, ins, ss, k, n);
  }

  lemma {:induction false} OpenIsSettledFrom(u: Setup, ins: seq<Input>, ss: seq<State>, k: nat, n: nat)
    requires IsRun(u, ins, ss) && k < n <= |ins| && !Open(ss[k]) && OpenThrough(ss, k + 1, n)
    ensures StratRates(ss[n].account)
  {
    hide Moves, Link, Inv, Settled, TradeFills, Bought;
    RunLinks(u, ins, ss, k);
    var points := LinkBuysDeal(ss[k], ss[k + 1], CandlesOf(ins[..k + 1]), u.risk, u.lev, ins[k].ml, k);
    OpenIsSettled(u, ins, ss, k + 1, n);
    assert ss[n].account == WithRates(ss[n].account);
  }

  // ---------- equity ----------

  /** While anything is sold, equity is the cash with the rest of the position at the last price sold at. */
  lemma {:induction false} EquityAfterSales(x: Account, fills: seq<Fill>)
    ensures var y := AfterSales(x, fills);
            y.totalEquity == if |fills| == 0 then x.totalEquity
                             else y.availableEquity + y.posLongSize * fills[|fills| - 1].price
  {
  }

  /** The sales of candles a .. b - 1 of an open trade. */
  function SalesSince(ins: seq<Input>, ss: seq<State>, a: nat, b: nat): seq<Fill>
    requires b <= |ins| < |ss| && forall i :: a <= i < b ==> |ss[i].trades| > 0
  {
    if b <= a then []
    else
      var s := ss[b - 1];
      SalesSince(ins, ss, a, b - 1)
      + SalesOn(s.trades[|s.trades| - 1], s.account.posLongSize, ins[b - 1].candle, b - 1)
  }

  /** While a position is open, and on the candle that closes it, total equity is what it was right after the entry
      until something is sold, and from then on cash and the rest of the position at the price of the latest sale. */
  lemma {:induction false} EquityWhileOpen(u: Setup, ins: seq<Input>, ss: seq<State>, k: nat, n: nat)
    requires IsRun(u, ins, ss) && k < n <= |ins| && !Open(ss[k]) && forall i :: k < i < n ==> Open(ss[i])
    requires Open(ss[k + 1])
    ensures forall i :: k + 1 <= i < n ==> |ss[i].trades| > 0
    ensures var sales := SalesSince(ins, ss, k + 1, n);
            ss[n].account.totalEquity
            == if |sales| == 0 then ss[k + 1].account.totalEquity
               else ss[n].account.availableEquity + ss[n].account.posLongSize * sales[|sales| - 1].price
  {
    hide IsRun, AfterSales, SalesOn, SalesSince;
    assert |ss| == |ins| + 1 by { RunLength(u, ins, ss); }
    if n == k + 1 {
      assert SalesSince(ins, ss, k + 1, n) == [] by { SalesSinceStart(ins, ss, k + 1); }
    } else {
      EquityWhileOpen(u, ins, ss, k, n - 1);
      OpenCandleSells(u, ins, ss, n - 1);
      SalesSinceNext(ins, ss, k + 1, n - 1);
      var s := ss[n - 1];
      var sales := SalesOn(s.trades[|s.trades| - 1], s.account.posLongSize, ins[n - 1].candle, n - 1);
      EquityAfterSales(s.account, sales);
      NoSales(s.account);
    }
  }

  lemma {:induction false} RunLength(u: Setup, ins: seq<Input>, ss: seq<State>)
    requires IsRun(u, ins, ss)
    ensures |ss| == |ins| + 1
  {
  }

  lemma {:induction false} SalesSinceStart(ins: seq<Input>, ss: seq<State>, a: nat)
    requires a <= |ins| < |ss|
    ensures SalesSince(ins, ss, a, a) == []
  {
  }

  lemma {:induction false} SalesSinceNext(ins: seq<Input>, ss: seq<State>, a: nat, j: nat)
    requires a <= j < |ins| < |ss| && forall i :: a <= i < j + 1 ==> |ss[i].trades| > 0
    ensures var s := ss[j];
            var sales := SalesOn(s.trades[|s.trades| - 1], s.account.posLongSize, ins[j].candle, j);
            && SalesSince(ins, ss, a, j + 1) == SalesSince(ins, ss, a, j) + sales
            && (sales == [] ==> SalesSince(ins, ss, a, j + 1) == SalesSince(ins, ss, a, j))
  {
    hide SalesOn;
  }

  lemma {:induction false} NoSales(x: Account)
    ensures AfterSales(x, []) == x
  {
  }

  // ---------- the record ----------

  /** The points with those reached by the high marked done. */
  function PointsAfter(ps: seq<MultiTPPoint>, high: real): seq<MultiTPPoint> {
    seq(|ps|, i requires 0 <= i < |ps| =>
      if PointReached(ps[i], high) then ps[i].(isDone := true) else ps[i])
  }

  predicate AllDone(ps: seq<MultiTPPoint>) {
    |ps| > 0 && forall i :: 0 <= i < |ps| ==> ps[i].isDone
  }

  /** The trades after candle i: a closed trade is appended with its candle and the name of its end; a trade with
      points has those reached marked done, and is also closed when none is left. */
  function TradesAfter(trades: seq<DataPoint>, c: Candle, i: nat): seq<DataPoint>
    requires |trades| > 0
  {
    var e := trades[|trades| - 1];
    if DeadlineOn(e, i) then trades + [e.(breakIndex := i, endAction := Max)]
    else if StopReached(e, c) then trades + [e.(breakIndex := i, endAction := SL)]
    else
      var e' := e.(multiTPs := Some(PointsAfter(PointsIn(e), c.high)));
      if AllDone(PointsIn(e')) then trades + [e'.(breakIndex := i, endAction := MultiTP)]
      else trades[|trades| - 1 := e']
  }

  lemma {:induction false} DoneIsAfter(ps: seq<MultiTPPoint>, d: nat, f: nat, high: real)
    requires Rungs(ps, d) && d < |ps| && Reaches(ps, d, f, high)
    ensures DoneUpTo(ps, f) == PointsAfter(ps, high)
    ensures AllDone(PointsAfter(ps, high)) <==> f == |ps|
  {
    forall i | 0 <= i < |ps|
      ensures DoneUpTo(ps, f)[i] == PointsAfter(ps, high)[i] && (PointsAfter(ps, high)[i].isDone <==> i < f)
    {
      assert Rung(ps, d, i);
    }
    assert f < |ps| ==> !PointsAfter(ps, high)[f].isDone;
  }

  /** The stored trades after every candle of an open trade, and whether it is still open. */
  lemma {:induction false} OpenCandleRecords(u: Setup, ins: seq<Input>, ss: seq<State>, i: nat)
    requires IsRun(u, ins, ss) && i < |ins| && Open(ss[i])
    ensures |ss[i].trades| > 0 && ss[i + 1].trades == TradesAfter(ss[i].trades, ins[i].candle, i)
    ensures Open(ss[i + 1]) <==> |ss[i + 1].trades| == |ss[i].trades|
  {
    hide Moves, Rungs;
    OpenCandle(u, ins, ss, i);
    PositionIsCovered(u, ins, ss, i);
    PositionIsCovered(u, ins, ss, i + 1);
    var trades, c := ss[i].trades, ins[i].candle;
    var e := trades[|trades| - 1];
    if !ClosesAll(e, i, c) {
      var ps := PointsIn(e);
      assert e.multiTPs.Some?;
      if ps == [] {
        assert PointsAfter(ps, c.high) == [] && e.(multiTPs := Some([])) == e;
        assert trades[|trades| - 1 := e] == trades;
      } else {
        var d: nat, f: nat :| Fires(ss[i], ss[i + 1], i, c.high, ps, d, f);
        DoneIsAfter(ps, d, f, c.high);
      }
    }
  }
}
