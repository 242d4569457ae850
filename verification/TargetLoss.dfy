/** A run that sells below its stop without a deadline: the target is reckoned from the close of the candle
    that confirmed the pivot, the stop from the close of a later candle on which the trade is entered. */
module TargetLoss {
  import opened Records
  import opened Executor
  import opened ExecutorLaws
  import opened EntryLog
  import opened EntryWatch
  import opened Strategy
  import opened Ladder
  import opened OpenTrade
  import opened StrategyRuns
  import opened TradeTheorems
  import opened FirstEntry
  import opened Renewals
  import opened LossBound
  import opened RunLoss
  import opened ExitsAtStop
  import opened TurningRuns
  import opened ZigZag
  import DeadlineLoss

  /** What the machine-learning call returns first: nine lows, and from candle 13 on: four. */
  const EARLY := Params(9, 300, 1.0, 35, [Target(1.5, 100.0)])
  const LATE := EARLY.(pivotLowsToEnter := 4)

  /** Fifteen turning candles with falling lows; candle 12 closes low and candle 13 high. */
  function CandleAt(i: nat): Candle {
    var close := if i == 12 then 80.5 else if i >= 13 then 99.0 else 90.0;
    Candle(close, if i % 2 == 0 then 100.0 else 99.0,
           if i == 14 then 98.5 else if i % 2 == 0 then 80.0 else 79.0 - i as real, close, 0)
  }

  function GapInputs(): (ins: seq<Input>)
    ensures |ins| == 15
    ensures forall i :: 0 <= i < 15 ==> ins[i] == Input(CandleAt(i), if i < 13 then EARLY else LATE)
  {
    seq(15, i requires 0 <= i < 15 => Input(CandleAt(i), if i < 13 then EARLY else LATE))
  }

  /** A fresh process with 1000 of equity, 2 percent risk and leverage 10. */
  const SETUP := Setup(PROCESS_START, 1000.0, 2.0, 10)

  lemma {:induction false} GapIsGood()
    ensures GoodInputs(GapInputs()) && GoodStart(SETUP.globals) && AsksLows(SETUP, GapInputs())
    ensures TurningInputs(GapInputs())
    ensures forall i :: 0 <= i < 15 ==>
              GapInputs()[i].candle.low <= GapInputs()[i].candle.close <= GapInputs()[i].candle.high
  {
    hide TurningInputs;
    SingleTargetIsGood(1.5);
    SingleTargetIsGood(0.0);
    GapTurns();
  }

  lemma {:induction false} GapTurns()
    ensures TurningInputs(GapInputs())
  {
    hide GapInputs, CandleAt, Turns;
    var candles := CandlesOf(GapInputs());
    forall i: nat | i < 14 ensures Turned(CandleAt(i), CandleAt(i + 1), i) {
      CandlesTurn(i);
    }
    TurnsByPairs(candles);
  }

  /** Candle d after candle c, the one of index i. */
  predicate Turned(c: Candle, d: Candle, i: nat) {
    if i % 2 == 0 then d.high < c.high && d.low < c.low else d.high > c.high && d.low > c.low
  }

  lemma {:induction false} CandlesTurn(i: nat)
    requires i < 14
    ensures Turned(CandleAt(i), CandleAt(i + 1), i)
  {
  }

  lemma {:induction false} TurnsByPairs(candles: seq<Candle>)
    requires forall i: nat :: i + 1 < |candles| ==> Turned(candles[i], candles[i + 1], i)
    ensures Turns(Highs(candles)) && Turns(Lows(candles))
  {
    forall i: nat | i + 1 < |candles|
      ensures if i % 2 == 0 then Highs(candles)[i + 1] < Highs(candles)[i]
              else Highs(candles)[i + 1] > Highs(candles)[i]
      ensures if i % 2 == 0 then Lows(candles)[i + 1] < Lows(candles)[i] else Lows(candles)[i + 1] > Lows(candles)[i]
    {
      assert Turned(candles[i], candles[i + 1], i);
    }
  }

  lemma {:induction false} SixLows(n: nat)
    requires n <= 13
    ensures |TurningPivots(n).pl| <= 6 && (n <= 8 ==> |TurningPivots(n).pl| < 4)
  {
  }

  /** Nine lows are asked for until candle 13, and never found: nothing is traded. */
  lemma {:induction false} NothingBeforeGap(ss: seq<State>, n: nat)
    requires IsRun(SETUP, GapInputs(), ss) && n <= 13
    ensures forall m :: 0 < m <= n ==> FewLows(ss, m)
    ensures Untouched(SETUP, ss[n]) && (n >= 2 ==> ss[n].schedule.params == EARLY)
  {
    hide Moves, GapInputs, TurningPivots, TurningInputs, Due;
    GapIsGood();
    if n == 0 {
    } else {
      NothingBeforeGap(ss, n - 1);
      DueFromStart(n - 1);
      RenewedEveryTwelfth(SETUP, GapInputs(), ss, n - 1);
      TurningOnRun(SETUP, GapInputs(), ss, n);
      SixLows(n);
      assert FewLows(ss, n);
    }
    WaitsForLows(SETUP, GapInputs(), ss, n);
  }

  lemma {:induction false} GapLows(candles: seq<Candle>)
    requires candles == CandlesOf(GapInputs()[..14])
    ensures var pl, low := TurningPivots(14).pl, Lows(candles);
            pl == [1, 3, 5, 7, 9, 11] && Priced(low, pl) && Descends(low, pl, 4, 5)
  {
    assert forall i :: 0 <= i < 14 ==> Lows(candles)[i] == CandleAt(i).low;
  }

  lemma {:induction false} GapBuys(x: Account, candles: seq<Candle>)
    requires candles == CandlesOf(GapInputs()[..14]) && AtRates(x) && x.availableEquity == 1000.0 && Buyable(x, candles)
    ensures var r := Entered([], x, 11, candles, 2.0, 10, LATE);
            && |r.0| == 1 && r.0[0].slPrice == 98.01 && r.0[0].maxExitIndex == 312
            && |PointsIn(r.0[0])| == 1 && PointsIn(r.0[0])[0].price == 81.7075
            && r.1.availableEquity == -998.5 && 0.0 < r.1.posLongSize < 20.2 && AtRates(r.1)
  {
    assert candles[11].high == 99.0 && candles[12].high == 100.0 && candles[12].close == 80.5
        && candles[13].close == 99.0;
    assert FirstHigher(candles, 11, 12) == Some(12);
    var e := EntryRecord([], 11, candles, LATE);
    assert e.slPrice == 98.01 && e.maxExitIndex == 312;
    assert TargetPrice(80.5, 1.5) == 81.7075;
    assert CalcEntry(99.0, 98.01, 2.0, 1000.0, 10).0 == 2000.0;
    OnePoint(PointsIn(e), EntryCap(x, 2000.0) / EntryPrice(x, 99.0));
  }

  lemma {:induction false} OnePoint(ps: seq<MultiTPPoint>, size: real)
    requires |ps| == 1 && ps[0].price > 0.0
    ensures var done := CompletedTPs(ps, size); |done| == 1 && done[0].price == ps[0].price
  {
  }

  /** On candle 13 the low of candle 11 is bought on, with the stop at 98.01 and the target at 81.7075. */
  lemma {:induction false} GapEnters(ss: seq<State>)
    requires IsRun(SETUP, GapInputs(), ss)
    ensures !Open(ss[13]) && Open(ss[14]) && |ss[14].trades| > 0
    ensures var e := LastTrade(ss[14].trades);
            e.slPrice == 98.01 && e.maxExitIndex == 312 && |PointsIn(e)| == 1 && PointsIn(e)[0].price == 81.7075
    ensures ss[14].account.availableEquity == -998.5 && ss[14].account.posLongSize < 20.2 && AtRates(ss[14].account)
  {
    hide Moves, Link, Inv, GapInputs, TurningInputs, Due;
    GapIsGood();
    NothingBeforeGap(ss, 13);
    RunLinks(SETUP, GapInputs(), ss, 13);
    TurningOnRun(SETUP, GapInputs(), ss, 14);
    DueFromStart(13);
    RenewedEveryTwelfth(SETUP, GapInputs(), ss, 13);
    var candles := CandlesOf(GapInputs()[..14]);
    GapLows(candles);
    LinkEntersFirst(SETUP, ss[13], ss[14], candles, GapInputs()[13].ml);
    GapBuys(WithRates(ss[13].account), candles);
  }

  /** The target sells at 81.7075 although the stop stands at 98.01, before any deadline, and takes more than a
      third of the equity, while the bound for a trade would be a tenth of it at most. */
  lemma {:induction false} TargetSellsBelowStop(ss: seq<State>)
    requires IsRun(SETUP, GapInputs(), ss)
    ensures IsTrade(ss, 13, 14) && !NoneBelow(GapInputs(), ss, 14, 15)
    ensures |ss[14].trades| > 0 && !ClosesAll(LastTrade(ss[14].trades), 14, GapInputs()[14].candle)
    ensures 0.0 <= MaxLoss(EXCHANGE_TRADE_FEE_PERC, ORDER_SLIPPAGE_PERC, SETUP.risk, SETUP.lev) < 0.1
    ensures ss[15].account.totalEquity < 2000.0 / 3.0
  {
    hide Moves, Link, Inv, Settled, NoneBelow, GapInputs, TurningInputs;
    GapIsGood();
    GapEnters(ss);
    RunLinks(SETUP, GapInputs(), ss, 14);
    var candles, c := CandlesOf(GapInputs()[..15]), GapInputs()[14].candle;
    LinkSettles(ss[14], ss[15], candles, 2.0, 10, LATE, 14, c);
    PositionIsCovered(SETUP, GapInputs(), ss, 14);
    var e, x := LastTrade(ss[14].trades), ss[14].account;
    OnlyPointFires(e, x.posLongSize, c, 14);
    OneFill(x, Fill(81.7075, x.posLongSize, MultiTP, 14));
    GapSale(x);
    assert TradeOpen(ss, 13, 14);
    ExitsAtStopIff(SETUP, GapInputs(), ss, 13, 14);
    FlatIsAvailable(SETUP, GapInputs(), ss, 15);
    DeadlineLoss.CrashBound();
  }

  lemma {:induction false} OnlyPointFires(e: DataPoint, pos: real, c: Candle, rel: nat)
    requires OpenEntry(e, pos) && |PointsIn(e)| == 1 && PointsIn(e)[0].price <= c.high && !ClosesAll(e, rel, c)
    ensures FillsAt(e, pos, c, rel) == [Fill(PointsIn(e)[0].price, pos, MultiTP, rel)]
  {
    var ps := PointsIn(e);
    var d: nat :| Covers(ps, d, pos);
    assert Rung(ps, d, 0);
    CandleFires(ps, d, 1, c.high);
    assert SizeFrom(ps, 1) == 0.0 && pos == ps[0].closeSize;
  }

  lemma {:induction false} GapSale(x: Account)
    requires AtRates(x) && x.availableEquity == -998.5 && 0.0 < x.posLongSize < 20.2
    ensures var y := ClosedLong(x, 81.7075, -1.0, x.posLongSize, 14, MultiTP);
            y.availableEquity < 2000.0 / 3.0 && y.posLongSize == 0.0
  {
    var got := Worth(x.posLongSize, ExitPrice(x, 81.7075));
    assert ExitPrice(x, 81.7075) < 81.6;
    assert got < 20.2 * 81.6;
  }

  /** Such a run exists. */
  lemma {:induction false} GapExists() returns (ss: seq<State>)
    ensures IsRun(SETUP, GapInputs(), ss)
  {
    GapIsGood();
    ss := RunExists(SETUP, GapInputs());
  }
}
