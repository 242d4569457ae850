/** The simulated-trade rows collected on every candle of every run, in the source's own numbers. */
module TradeRows {
  import opened Records
  import opened Executor
  import opened TradeLog
  import opened Strategy
  import opened StrategyRuns
  import opened TradeTheorems
  import opened Accounting
  import opened LossBound
  import opened RunLoss
  import opened Cooldown
  import opened OpenCandles
  import opened Entries

  // ---------- rows of exits ----------

  /** The row of a sale from a position bought at this price: profit is what was received less what was paid. */
  function SaleRow(f: Fill, paid: real): Row {
    ExitRow(Received(f.price), f.size, f.size * Received(f.price) - f.size * paid, ExitFee(f.size, f.price))
  }

  function SaleRows(fills: seq<Fill>, paid: real): seq<Row> {
    seq(|fills|, i requires 0 <= i < |fills| => SaleRow(fills[i], paid))
  }

  function SaleActions(fills: seq<Fill>): seq<Action> {
    seq(|fills|, i requires 0 <= i < |fills| =>
      Action(fills[i].kind, Received(fills[i].price), 0.0, fills[i].size, 0.0, ExitFee(fills[i].size, fills[i].price)))
  }

  ghost predicate AllOn(fills: seq<Fill>, i: int) {
    forall j :: 0 <= j < |fills| ==> fills[j].candle == i && fills[j].kind != Enter && fills[j].kind != Nothing
  }

  lemma {:induction false} SalesLog(x: Account, fills: seq<Fill>, i: int)
    requires AllOn(fills, i)
    ensures var y := AfterSales(x, fills);
            && ActionsAt(y.actions, i) == ActionsAt(x.actions, i) + SaleActions(fills)
            && forall c :: c != i ==> ActionsAt(y.actions, c) == ActionsAt(x.actions, c)
  {
    hide Received, ExitFee;
    if |fills| == 0 {
    } else {
      var front := fills[..|fills| - 1];
      SalesLog(x, front, i);
      assert SaleActions(fills) == SaleActions(front) + [SaleActions(fills)[|fills| - 1]];
    }
  }

  lemma {:induction false} ActionRows(fills: seq<Fill>, i: int, paid: real)
    requires AllOn(fills, i)
    ensures RowsOf(SaleActions(fills), paid) == SaleRows(fills, paid)
    ensures !HasEnter(SaleActions(fills))
  {
    hide Received, ExitFee;
    if |fills| == 0 {
    } else {
      var n, front := |fills| - 1, fills[..|fills| - 1];
      ActionRows(front, i, paid);
      assert SaleActions(fills)[..n] == SaleActions(front);
      assert SaleRows(fills, paid) == SaleRows(front, paid) + [SaleRow(fills[n], paid)];
      assert fills[n].kind != Enter && fills[n].kind != Nothing;
      assert RowOf(SaleActions(fills)[n], paid) == SaleRow(fills[n], paid);
      assert forall j :: 0 <= j < |fills| ==> SaleActions(fills)[j].kind == fills[j].kind;
    }
  }

  lemma {:induction false} PointSalesOn(ps: seq<MultiTPPoint>, high: real, i: nat)
    ensures AllOn(PointSales(ps, high, i), i)
  {
    if |ps| == 0 {
    } else {
      PointSalesOn(ps[..|ps| - 1], high, i);
    }
  }

  lemma {:induction false} SalesAllOn(e: DataPoint, pos: real, c: Candle, i: nat)
    ensures AllOn(SalesOn(e, pos, c, i), i)
  {
    PointSalesOn(PointsIn(e), c.high, i);
  }

  // ---------- the price paid ----------

  /** Position entered on candle k with this capital, and the candles since. */
  ghost predicate BoughtWith(ins: seq<Input>, ss: seq<State>, k: nat, cap: real, sl: real, risk: real)
    requires k < |ins| < |ss|
  {
    && ins[k].candle.close > 0.0 && cap > 10.0
    && ss[k + 1].account
       == AfterBuy(ss[k].account.(orderSlippagePerc := 0.15, exchangeTradeFeePerc := 0.075), cap,
                   ins[k].candle.close, sl, risk, k)
  }

  lemma {:induction false} EntryIsBought(u: Setup, ins: seq<Input>, ss: seq<State>, k: nat)
    returns (cap: real, sl: real)
    requires IsRun(u, ins, ss) && k < |ins| && !Open(ss[k]) && Open(ss[k + 1])
    ensures BoughtWith(ins, ss, k, cap, sl, u.risk)
    ensures |ss[k + 1].trades| > 0 && sl == ss[k + 1].trades[|ss[k + 1].trades| - 1].slPrice
    ensures IsCapital(cap, ss[k].account.availableEquity, ins[k].candle.close, sl, u.risk, u.lev)
  {
    hide Moves, IsCapital, AfterBuy;
    FlatCallBuys(u, ins, ss, k);
    var x := ss[k].account.(orderSlippagePerc := 0.15, exchangeTradeFeePerc := 0.075);
    assert ss[k + 1].trades != ss[k].trades;
    sl := ss[k + 1].trades[|ss[k + 1].trades| - 1].slPrice;
    cap :| IsCapital(cap, x.availableEquity, ins[k].candle.close, sl, u.risk, u.lev)
           && ss[k + 1].account == if cap <= 10.0 then x else AfterBuy(x, cap, ins[k].candle.close, sl, u.risk, k);
  }

  lemma {:induction false} EntryLogged(u: Setup, ins: seq<Input>, ss: seq<State>, k: nat, cap: real, sl: real)
    requires IsRun(u, ins, ss) && k < |ins| && !Open(ss[k]) && Open(ss[k + 1])
    requires BoughtWith(ins, ss, k, cap, sl, u.risk)
    ensures var cash := ss[k].account.availableEquity - cap * 0.99925;
            ActionsAt(ss[k + 1].account.actions, k)
            == [Action(Enter, Paid(ins[k].candle.close), sl, Size(cap, ins[k].candle.close), Risked(u.risk, cash),
                       cap * 0.00075)]
    ensures k >= 1 && EntryPriceAt(ss[k + 1].account.actions, k) == Paid(ins[k].candle.close)
  {
    hide Moves, Paid, Size, Risked;
    LogFits(u, ins, ss, k + 1);
    var acts := ActionsAt(ss[k + 1].account.actions, k);
    assert k in ss[k + 1].account.actions;
    assert acts[0].kind == Enter && HasEnter(acts);
    assert acts[|acts| - 1] == acts[0];
  }

  /** While a position is open, and on the candle that closes it, the display's entry price is the one paid. */
  lemma {:induction false} EntryPriceWhileOpen(u: Setup, ins: seq<Input>, ss: seq<State>, k: nat, n: nat)
    requires IsRun(u, ins, ss) && k < n <= |ins|
    requires !Open(ss[k]) && Open(ss[k + 1]) && forall i :: k < i < n ==> Open(ss[i])
    ensures EntryPriceAt(ss[n].account.actions, n - 1) == Paid(ins[k].candle.close)
  {
    hide Moves, AfterSales, SalesOn, Paid, BoughtWith;
    if n == k + 1 {
      var cap, sl := EntryIsBought(u, ins, ss, k);
      EntryLogged(u, ins, ss, k, cap, sl);
    } else {
      EntryPriceWhileOpen(u, ins, ss, k, n - 1);
      var before, after := ss[n - 1].account.actions, ss[n].account.actions;
      OpenCandleLogs(u, ins, ss, n - 1);
      EntryPriceFrame(before, after, n - 2);
      EntryPricePersists(after, n - 2, n - 1);
    }
  }

  /** What a candle of an open trade logs. */
  lemma {:induction false} OpenCandleLogs(u: Setup, ins: seq<Input>, ss: seq<State>, i: nat)
    requires IsRun(u, ins, ss) && i < |ins| && Open(ss[i])
    ensures |ss[i].trades| > 0 && i >= 1
    ensures var sales := SalesOn(ss[i].trades[|ss[i].trades| - 1], ss[i].account.posLongSize, ins[i].candle, i);
            && ActionsAt(ss[i + 1].account.actions, i) == SaleActions(sales)
            && !HasEnter(SaleActions(sales)) && AllOn(sales, i)
            && forall c :: c != i ==> ActionsAt(ss[i + 1].account.actions, c) == ActionsAt(ss[i].account.actions, c)
  {
    hide Moves, AfterSales, SalesOn, SaleActions, HasEnter;
    OpenCandleSells(u, ins, ss, i);
    LogFits(u, ins, ss, i);
    assert i !in ss[i].account.actions;
    var sales := SalesOn(ss[i].trades[|ss[i].trades| - 1], ss[i].account.posLongSize, ins[i].candle, i);
    SalesAllOn(ss[i].trades[|ss[i].trades| - 1], ss[i].account.posLongSize, ins[i].candle, i);
    SalesLog(ss[i].account, sales, i);
    ActionRows(sales, i, 0.0);
  }

  // ---------- rows of runs ----------

  /** The rows collected on candle i. */
  function RowsOn(ss: seq<State>, i: nat): seq<Row>
    requires i + 1 < |ss|
  {
    Kept(Report(ss[i + 1].account.actions, i))
  }

  lemma {:induction false} RowsAreKept(u: Setup, ins: seq<Input>, ss: seq<State>, i: nat)
    requires IsRun(u, ins, ss) && i < |ins|
    ensures RowsOn(ss, i) == Report(ss[i + 1].account.actions, i)
  {
    hide Moves, Balanced, Kept, Report, NetOf, Collected;
    RunBalances(u, ins, ss, i);
    RunCandleBalances(u, ins, ss, i, u.equity + NetOf(Collected(ss, i)));
  }

  /** The rows of a candle on which a position entered on candle k is open: one for each sale. */
  lemma {:induction false} RowsWhileOpen(u: Setup, ins: seq<Input>, ss: seq<State>, k: nat, i: nat)
    requires IsRun(u, ins, ss) && k < i < |ins| && !Open(ss[k]) && OpenThrough(ss, k + 1, i)
    ensures |ss[i].trades| > 0
    ensures RowsOn(ss, i)
         == SaleRows(SalesOn(ss[i].trades[|ss[i].trades| - 1], ss[i].account.posLongSize, ins[i].candle, i),
                     Paid(ins[k].candle.close))
  {
    hide Moves, SalesOn, SaleActions, SaleRows, Paid, Kept;
    RowsAreKept(u, ins, ss, i);
    OpenCandleLogs(u, ins, ss, i);
    EntryPriceWhileOpen(u, ins, ss, k, i + 1);
    ActionRows(SalesOn(ss[i].trades[|ss[i].trades| - 1], ss[i].account.posLongSize, ins[i].candle, i), i,
               Paid(ins[k].candle.close));
  }

  /** The row of the candle of an entry: the price paid, the size, the risk percentage of the cash left, and as fees
      0.075 percent of the capital. A flat candle without an entry has no rows. */
  lemma {:induction false} RowsWhileFlat(u: Setup, ins: seq<Input>, ss: seq<State>, k: nat)
    requires IsRun(u, ins, ss) && k < |ins| && !Open(ss[k])
    ensures !Open(ss[k + 1]) ==> RowsOn(ss, k) == []
    ensures Open(ss[k + 1]) ==>
              exists cap, sl ::
                && BoughtWith(ins, ss, k, cap, sl, u.risk)
                && RowsOn(ss, k)
                   == [EntryRow(Paid(ins[k].candle.close), Size(cap, ins[k].candle.close),
                                Risked(u.risk, ss[k].account.availableEquity - cap * 0.99925), cap * 0.00075)]
  {
    hide Moves, Paid, Size, Risked, Kept, BoughtWith;
    RowsAreKept(u, ins, ss, k);
    if Open(ss[k + 1]) {
      var cap, sl := EntryIsBought(u, ins, ss, k);
      assert ins[k].candle.close > 0.0 by { FlatCallBuys(u, ins, ss, k); }
      EntryLogged(u, ins, ss, k, cap, sl);
      OneRow(ActionsAt(ss[k + 1].account.actions, k), Paid(ins[k].candle.close));
    } else {
      RunLinks(u, ins, ss, k);
      LinkIdles(ss[k], ss[k + 1], CandlesOf(ins[..k + 1]), u.risk, u.lev, ins[k].ml);
      LogFits(u, ins, ss, k);
      assert k !in ss[k + 1].account.actions;
    }
  }

  lemma {:induction false} OneRow(acts: seq<Action>, p: real)
    requires |acts| == 1 && acts[0].kind == Enter
    ensures RowsOf(acts, p) == [EntryRow(acts[0].price, acts[0].posSize, acts[0].riskedEquity, acts[0].exchangeFee)]
  {
    assert acts[..0] == [] && RowsOf(acts[..0], p) == [];
  }
}
