/** Runs of strat1 in a market that turns on every candle. */
module TurningRuns {
  import opened Records
  import opened Strategy
  import opened StrategyRuns
  import opened ZigZag
  import PivotRuns

  ghost predicate TurningInputs(ins: seq<Input>) {
    Turns(Highs(CandlesOf(ins))) && Turns(Lows(CandlesOf(ins)))
  }

  lemma {:induction false} TurningFront(ins: seq<Input>, n: nat)
    requires TurningInputs(ins) && n <= |ins|
    ensures TurningInputs(ins[..n])
  {
    var all, candles := CandlesOf(ins), CandlesOf(ins[..n]);
    assert Highs(candles) == Highs(all)[..n] && Lows(candles) == Lows(all)[..n];
  }

  lemma {:induction false} PivotsOfTurning(ins: seq<Input>)
    requires TurningInputs(ins)
    ensures PivotRuns.Run(Highs(CandlesOf(ins)), Lows(CandlesOf(ins))) == TurningPivots(|ins|)
  {
    TurningRun(Highs(CandlesOf(ins)), Lows(CandlesOf(ins)));
  }

  /** The pivots of a run in such a market: every candle but the last. */
  lemma {:induction false} TurningOnRun(u: Setup, ins: seq<Input>, ss: seq<State>, n: nat)
    requires IsRun(u, ins, ss) && TurningInputs(ins) && n <= |ins|
    ensures ss[n].pivots == TurningPivots(n)
  {
    hide Moves, PivotRuns.Run, TurningInputs, TurningPivots;
    RunKeepsInv(u, ins, ss, n);
    TurningFront(ins, n);
    PivotsOfTurning(ins[..n]);
  }
}
