/** A run that sells below its stop: the deadline is checked before the stop, so a close far below the
    stop becomes the exit price and the trade costs more than the bound. */
module DeadlineLoss {
  import opened Records
  import opened Executor
  import opened EntryLog
  import opened EntryWatch
  import opened Strategy
  import opened StrategyRuns
  import opened TradeTheorems
  import opened FirstEntry
  import opened Renewals
  import opened LossBound
  import opened RunLoss
  import opened TurningRuns
  import opened ZigZag
  import Ladder

  /** Ten turning candles with falling lows; the last one closes at a hundredth of the price. */
  const CLOSES: seq<real> := [100.0, 98.5, 99.0, 97.5, 98.0, 96.5, 97.0, 95.5, 96.0, 1.0]

  /** What the machine-learning call returns: four lows, at most one candle, 1 percent stop. */
  const ML := Params(4, 1, 1.0, 35, [Target(1.5, 100.0)])

  function CrashInputs(): (ins: seq<Input>)
    ensures |ins| == 10
    ensures forall i :: 0 <= i < 10 ==>
              ins[i] == Input(Candle(CLOSES[i], CLOSES[i] + 0.25, CLOSES[i] - 0.25, CLOSES[i], 0), ML)
  {
    seq(10, i requires 0 <= i < 10 => Input(Candle(CLOSES[i], CLOSES[i] + 0.25, CLOSES[i] - 0.25, CLOSES[i], 0), ML))
  }

  /** A fresh process with 1000 of equity, 2 percent risk and leverage 10. */
  const SETUP := Setup(PROCESS_START, 1000.0, 2.0, 10)

  lemma {:induction false} CrashTurns()
    ensures TurningInputs(CrashInputs())
  {
    var closes := CLOSES;
    assert closes[1] < closes[0] && closes[3] < closes[2] && closes[5] < closes[4] && closes[7] < closes[6]
        && closes[9] < closes[8];
    assert closes[2] > closes[1] && closes[4] > closes[3] && closes[6] > closes[5] && closes[8] > closes[7];
    assert forall i :: 0 <= i && i + 1 < 10 ==>
        if i % 2 == 0 then closes[i + 1] < closes[i] else closes[i + 1] > closes[i];
    var candles := CandlesOf(CrashInputs());
    assert forall i :: 0 <= i < 10 ==> Highs(candles)[i] == closes[i] + 0.25 && Lows(candles)[i] == closes[i] - 0.25;
  }

  lemma {:induction false} CrashIsGood()
    ensures GoodInputs(CrashInputs()) && GoodStart(SETUP.globals) && AsksLows(SETUP, CrashInputs())
  {
    Ladder.SingleTargetIsGood(1.5);
    Ladder.SingleTargetIsGood(0.0);
  }

  /** The parameters come on candle 1 and stay. */
  lemma {:induction false} CrashParams(ss: seq<State>)
    requires IsRun(SETUP, CrashInputs(), ss)
    ensures ss[9].schedule.params == ML
  {
    hide Moves;
    CrashIsGood();
    NothingBeforeCrash(ss, 1);
    RenewedEveryTwelfth(SETUP, CrashInputs(), ss, 1);
    forall i: nat | 2 <= i < 9 ensures !Due(SETUP.globals, i) {
      DueFromStart(i);
    }
    DueFromStart(1);
    ParamsStay(SETUP, CrashInputs(), ss, 2, 9);
  }

  lemma {:induction false} NothingBeforeCrash(ss: seq<State>, n: nat)
    requires IsRun(SETUP, CrashInputs(), ss) && n <= 8
    ensures Untouched(SETUP, ss[n])
  {
    hide Moves, CrashInputs;
    CrashTurns();
    forall m | 0 < m <= n ensures FewLows(ss, m) {
      TurningOnRun(SETUP, CrashInputs(), ss, m);
    }
    WaitsForLows(SETUP, CrashInputs(), ss, n);
  }

  /** On candle 8 the fourth low is bought on, with a stop at 95.04 and a deadline on candle 9. */
  lemma {:induction false} CrashEnters(ss: seq<State>)
    requires IsRun(SETUP, CrashInputs(), ss)
    ensures !Open(ss[8]) && Open(ss[9]) && |ss[9].trades| > 0
    ensures LastTrade(ss[9].trades).slPrice == 95.04 && LastTrade(ss[9].trades).maxExitIndex == 9
    ensures ss[9].account.availableEquity == -998.5 && ss[9].account.posLongSize < 21.0 && AtRates(ss[9].account)
  {
    hide Moves, Link, Inv, CrashInputs;
    CrashTurns();
    NothingBeforeCrash(ss, 8);
    RunLinks(SETUP, CrashInputs(), ss, 8);
    TurningOnRun(SETUP, CrashInputs(), ss, 9);
    CrashParams(ss);
    var candles := CandlesOf(CrashInputs()[..9]);
    CrashLows(candles);
    LinkEntersFirst(SETUP, ss[8], ss[9], candles, CrashInputs()[8].ml);
    CrashBuys(WithRates(ss[8].account), candles);
  }

  lemma {:induction false} CrashLows(candles: seq<Candle>)
    requires candles == CandlesOf(CrashInputs()[..9])
    ensures var pl, low := TurningPivots(9).pl, Lows(candles);
            pl == [1, 3, 5, 7] && Priced(low, pl) && Descends(low, pl, 4, 3)
  {
  }

  lemma {:induction false} CrashBuys(x: Account, candles: seq<Candle>)
    requires candles == CandlesOf(CrashInputs()[..9]) && AtRates(x) && x.availableEquity == 1000.0
    requires Buyable(x, candles)
    ensures var r := Entered([], x, 7, candles, 2.0, 10, ML);
            && |r.0| == 1 && r.0[0].slPrice == 95.04 && r.0[0].maxExitIndex == 9
            && r.1.availableEquity == -998.5 && 0.0 < r.1.posLongSize < 21.0 && AtRates(r.1)
  {
    hide CompletedTPs;
    assert candles[7].high == 95.75 && candles[8].high == 96.25 && candles[8].close == 96.0;
    assert FirstHigher(candles, 7, 8) == Some(8);
    var e := EntryRecord([], 7, candles, ML);
    assert e.slPrice == 95.04 && e.maxExitIndex == 9;
    assert CalcEntry(96.0, 95.04, 2.0, 1000.0, 10).0 == 2000.0;
  }

  /** The deadline sells at 1 although the stop stands at 95.04, and takes all the equity, while the bound
      for a trade would be a tenth of it at most. */
  lemma {:induction false} DeadlineSellsBelowStop(ss: seq<State>)
    requires IsRun(SETUP, CrashInputs(), ss)
    ensures Open(ss[9]) && !Open(ss[10]) && |ss[9].trades| > 0
    ensures !NoExitBelow(LastTrade(ss[9].trades), CrashInputs()[9].candle, 9)
    ensures Sane(EXCHANGE_TRADE_FEE_PERC, ORDER_SLIPPAGE_PERC, SETUP.risk, SETUP.lev)
    ensures 0.0 <= MaxLoss(EXCHANGE_TRADE_FEE_PERC, ORDER_SLIPPAGE_PERC, SETUP.risk, SETUP.lev) < 0.1
    ensures ss[10].account.totalEquity < 0.0
  {
    hide Moves, Link, Inv, Settled;
    CrashEnters(ss);
    RunLinks(SETUP, CrashInputs(), ss, 9);
    var candles := CandlesOf(CrashInputs()[..10]);
    LinkSettles(ss[9], ss[10], candles, 2.0, 10, ML, 9, CrashInputs()[9].candle);
    OpenCandle(SETUP, CrashInputs(), ss, 9);
    FlatIsAvailable(SETUP, CrashInputs(), ss, 10);
    var x := ss[9].account;
    OneFill(x, Fill(1.0, x.posLongSize, Max, 9));
    CrashSale(x);
    CrashBound();
  }

  lemma {:induction false} CrashSale(x: Account)
    requires AtRates(x) && x.availableEquity == -998.5 && 0.0 < x.posLongSize < 21.0
    ensures ClosedLong(x, 1.0, -1.0, x.posLongSize, 9, Max).availableEquity < 0.0
  {
    var got := Worth(x.posLongSize, ExitPrice(x, 1.0));
    assert ExitPrice(x, 1.0) == 0.9985;
    assert got < 21.0 && Less(EXCHANGE_TRADE_FEE_PERC, got) < 21.0;
  }

  lemma {:induction false} CrashBound()
    ensures 0.0 <= MaxLoss(EXCHANGE_TRADE_FEE_PERC, ORDER_SLIPPAGE_PERC, 2.0, 10) < 0.1
  {
    var k := RoundTrip(EXCHANGE_TRADE_FEE_PERC, ORDER_SLIPPAGE_PERC);
    assert k * 1.0015 == 0.99925 * 0.9985;
    assert 0.9962 < k < 0.9963;
    assert k * (2.0 / 100.0) + (1.0 - k) * 10.0 < 0.06;
  }

  /** Such a run exists. */
  lemma {:induction false} CrashExists() returns (ss: seq<State>)
    ensures IsRun(SETUP, CrashInputs(), ss)
  {
    CrashIsGood();
    ss := RunExists(SETUP, CrashInputs());
  }
}
