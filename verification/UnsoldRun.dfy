/** In a market that only falls strat1 buys a position without a stop and never sells it. */
module UnsoldRun {
  import opened Records
  import opened Executor
  import opened EntryLog
  import opened Strategy
  import opened StrategyRuns
  import opened TradeTheorems
  import opened FallingMarket
  import opened FirstEntry
  import opened Renewals
  import Ladder
  import PivotRuns

  /** Prices that only fall. */
  ghost predicate FallingInputs(ins: seq<Input>) {
    && GoodInputs(ins)
    && Falls(Highs(CandlesOf(ins))) && Falls(Lows(CandlesOf(ins)))
  }

  /** The capital strat1 commits without a stop exceeds the minimum. */
  ghost predicate Affordable(u: Setup) {
    Share(u.risk, u.equity) > 10.0 && u.equity * (u.lev as real) > 10.0
  }

  /** The candle on which the fourth pivot low is found. */
  const ENTRY_CANDLE := 4 * CYCLE

  lemma {:induction false} FallingFront(ins: seq<Input>, n: nat)
    requires FallingInputs(ins) && n <= |ins|
    ensures var candles := CandlesOf(ins[..n]);
            && |candles| == n && Falls(Highs(candles)) && Falls(Lows(candles))
            && PivotRuns.Run(Highs(candles), Lows(candles)) == FallingPivots(n)
  {
    var candles := CandlesOf(ins[..n]);
    assert Highs(candles) == Highs(CandlesOf(ins))[..n] && Lows(candles) == Lows(CandlesOf(ins))[..n];
    FallingRun(Highs(candles), Lows(candles));
  }

  /** The pivots of a run in a falling market. */
  lemma {:induction false} PivotsOnRun(u: Setup, ins: seq<Input>, ss: seq<State>, n: nat)
    requires IsRun(u, ins, ss) && FallingInputs(ins) && n <= |ins|
    ensures ss[n].pivots == FallingPivots(n)
  {
    hide Moves, PivotRuns.Run, FallingPivots;
    RunKeepsInv(u, ins, ss, n);
    FallingFront(ins, n);
  }

  lemma {:induction false} FourLows(n: nat)
    ensures n <= ENTRY_CANDLE ==> |FallingPivots(n).pl| < 4
    ensures n == ENTRY_CANDLE + 1 ==> FallingPivots(n).pl == FallingLows(4)
  {
  }

  lemma {:induction false} LinkBuys(u: Setup, s: State, s': State, candles: seq<Candle>, ml: Params)
    requires Link(s, s', candles, u.risk, u.lev, ml) && Untouched(u, s) && Affordable(u)
    requires |candles| == ENTRY_CANDLE + 1 && Falls(Lows(candles)) && Falls(Highs(candles))
    requires s'.pivots.pl == FallingLows(4) && s'.schedule.params.pivotLowsToEnter <= 4
    ensures Open(s')
  {
    hide Entered;
    LinkEntersFirst(u, s, s', candles, ml);
    BuysUnstopped(u, WithRates(s.account), ENTRY_CANDLE - 1, candles, s'.schedule.params);
  }

  lemma {:induction false} CapAtFullRisk(price: real, risk: real, e: real, lev: int, accRisk: real, limit: real)
    requires price != 0.0 && accRisk == Share(risk, e) && limit == e * (lev as real)
    ensures CalcEntry(price, 0.0, risk, e, lev).0 == if accRisk > limit then limit else accRisk
  {
    hide Share;
    var rawRiskPerc := (price - 0.0) / price;
    assert rawRiskPerc == 1.0;
    assert Share(risk, e) / rawRiskPerc == Share(risk, e);
  }

  lemma {:induction false} BuysUnstopped(u: Setup, x: Account, entry: nat, candles: seq<Candle>, params: Params)
    requires Affordable(u) && x.availableEquity == u.equity && x == WithRates(x)
    requires entry < |candles| && Falls(Highs(candles)) && Buyable(x, candles) && candles[|candles| - 1].close > 0.0
    ensures Entered([], x, entry, candles, u.risk, u.lev, params).1.posLongSize > 0.0
  {
    var close := candles[|candles| - 1].close;
    NeverHigher(candles, entry);
    var e := EntryRecord([], entry, candles, params);
    assert e.slPrice == 0.0;
    CapAtFullRisk(close, u.risk, x.availableEquity, u.lev, Share(u.risk, u.equity), u.equity * (u.lev as real));
    var cap := CalcEntry(close, e.slPrice, u.risk, x.availableEquity, u.lev).0;
    SizePositive(cap, close);
  }

  lemma {:induction false} StaysBelow(candles: seq<Candle>, entry: nat)
    requires entry < |candles| && Falls(Highs(candles))
    ensures forall k :: entry < k < |candles| ==> candles[k].high < candles[entry].high
  {
    forall k | entry < k < |candles| ensures candles[k].high < candles[entry].high {
      assert Highs(candles)[k] < Highs(candles)[entry];
    }
  }

  lemma {:induction false} NeverHigher(candles: seq<Candle>, entry: nat)
    requires entry < |candles| && Falls(Highs(candles))
    ensures FirstHigher(candles, entry, entry + 1) == None
  {
    StaysBelow(candles, entry);
  }

  lemma {:induction false} NothingBefore(u: Setup, ins: seq<Input>, ss: seq<State>, n: nat)
    requires IsRun(u, ins, ss) && FallingInputs(ins) && n <= |ins| && n <= ENTRY_CANDLE
    ensures Untouched(u, ss[n])
  {
    hide Moves, FallingPivots;
    forall m | 0 < m <= n ensures FewLows(ss, m) {
      PivotsOnRun(u, ins, ss, m);
      FourLows(m);
    }
    WaitsForLows(u, ins, ss, n);
  }

  /** In a falling market, unless more than four lows are asked for, strat1 buys on candle 204 without a
      stop, a target or a deadline and never sells, however long the run. */
  lemma {:induction false} FallingMarketIsNeverSold(u: Setup, ins: seq<Input>, ss: seq<State>)
    requires IsRun(u, ins, ss) && FallingInputs(ins) && Affordable(u) && |ins| > ENTRY_CANDLE
    requires ss[ENTRY_CANDLE + 1].schedule.params.pivotLowsToEnter <= 4
    ensures !Open(ss[ENTRY_CANDLE])
    ensures forall c :: ENTRY_CANDLE < c <= |ins| ==>
              Open(ss[c]) && |ss[c].trades| == 1 && ss[c].trades[0].slPrice == 0.0 && ss[c].trades[0].maxExitIndex == 0
  {
    hide Moves, Link, Inv, EntryMade, Confirmed, FallingPivots, PivotRuns.Run;
    var k := ENTRY_CANDLE;
    NothingBefore(u, ins, ss, k);
    RunLinks(u, ins, ss, k);
    FallingFront(ins, k + 1);
    PivotsOnRun(u, ins, ss, k + 1);
    FourLows(k + 1);
    LinkBuys(u, ss[k], ss[k + 1], CandlesOf(ins[..k + 1]), ins[k].ml);
    EntryOnRuns(u, ins, ss, k);
    EmptyEntry(CandlesOf(ins[..k + 1]), ss[k], ss[k + 1]);
    forall c | ENTRY_CANDLE < c <= |ins|
      ensures Open(ss[c]) && |ss[c].trades| == 1 && ss[c].trades[0].slPrice == 0.0 && ss[c].trades[0].maxExitIndex == 0
    {
      EmptyRecordStays(u, ins, ss, k, c);
    }
  }

  lemma {:induction false} EmptyEntry(candles: seq<Candle>, s: State, s': State)
    requires EntryMade(candles, s, s') && Falls(Highs(candles)) && s.trades == []
    ensures |s'.trades| == 1
    ensures s'.trades[0] == NoEntry.(actualEntryIndex := |candles| - 1, multiTPs := Some([]))
  {
    var p := s'.pivots.pl[|s'.pivots.pl| - 1];
    StaysBelow(candles, p);
  }

  /** One such market, of any length: each candle one below the last. */
  function SteadyFall(n: nat): (ins: seq<Input>)
    ensures |ins| == n
  {
    var ml := Params(4, 300, 1.0, 35, [Target(1.5, 100.0)]);
    seq(n, i requires 0 <= i < n =>
      var price := (n - i) as real;
      Input(Candle(price + 0.25, price + 0.5, price, price + 0.25, 0), ml))
  }

  /** The run exists: a fresh process, 1000 of equity, 2 percent risk, leverage 10, no trade ever closed. */
  lemma {:induction false} UnsoldRunExists(n: nat) returns (u: Setup, ss: seq<State>)
    requires n > ENTRY_CANDLE
    ensures IsRun(u, SteadyFall(n), ss) && forall c :: ENTRY_CANDLE < c <= n ==> Open(ss[c])
  {
    var ins := SteadyFall(n);
    u := Setup(PROCESS_START, 1000.0, 2.0, 10);
    Ladder.SingleTargetIsGood(0.0);
    assert Affordable(u);
    SteadyFallFalls(n);
    ss := RunExists(u, ins);
    CountStaysBelow(u, ins, ss, ENTRY_CANDLE + 1, 4);
    FallingMarketIsNeverSold(u, ins, ss);
  }

  lemma {:induction false} SteadyFallFalls(n: nat)
    ensures FallingInputs(SteadyFall(n))
  {
    Ladder.SingleTargetIsGood(1.5);
  }
}
