/** What happens when the machine-learning call asks for no pivot low: the call of strat1 that finds the
    fourth low reads past the end of the list, and a count of -1 divides by zero at once. */
module NoLowsAsked {
  import opened Records
  import opened EntryLog
  import opened Strategy
  import opened StrategyRuns
  import opened FirstEntry
  import opened Renewals
  import opened TurningRuns
  import opened ZigZag
  import Ladder
  import PivotRuns

  function Asks(count: int): Params {
    Params(count, 300, 1.0, 35, [Target(1.5, 100.0)])
  }

  /** Nine candles that turn, the even ones at 100 and the odd ones at 99. */
  function Market(count: int): (ins: seq<Input>)
    ensures |ins| == 9 && forall i :: 0 <= i < 9 ==> ins[i].ml == Asks(count)
  {
    seq(9, i requires 0 <= i < 9 =>
      var close := if i % 2 == 0 then 100.0 else 99.0;
      Input(Candle(close, close + 0.25, close - 0.25, close, 0), Asks(count)))
  }

  /** A fresh process with 1000 of equity, 2 percent risk and leverage 10. */
  const SETUP := Setup(PROCESS_START, 1000.0, 2.0, 10)

  lemma {:induction false} MarketTurns(count: int, n: nat)
    requires n <= 9
    ensures TurningInputs(Market(count)[..n]) && GoodInputs(Market(count)[..n]) && GoodStart(SETUP.globals)
  {
    Ladder.SingleTargetIsGood(1.5);
    Ladder.SingleTargetIsGood(0.0);
    assert TurningInputs(Market(count));
    TurningFront(Market(count), n);
  }

  lemma {:induction false} FewTurns(n: nat)
    ensures n <= 8 ==> |TurningPivots(n).pl| < 4
    ensures n == 9 ==> |TurningPivots(n).pl| == 4
  {
  }

  lemma {:induction false} StillUntouched(count: int, n: nat, ss: seq<State>)
    requires n <= 8 && IsRun(SETUP, Market(count)[..n], ss)
    ensures forall m :: 0 <= m <= n ==> Untouched(SETUP, ss[m])
  {
    hide Moves, Market, TurningPivots, TurningInputs;
    var ins := Market(count)[..n];
    MarketTurns(count, n);
    forall m | 0 < m <= n ensures FewLows(ss, m) {
      TurningOnRun(SETUP, ins, ss, m);
      FewTurns(m);
    }
    forall m | 0 <= m <= n ensures Untouched(SETUP, ss[m]) {
      WaitsForLows(SETUP, ins, ss, m);
    }
  }

  /** The count is asked for from candle 1 on. */
  lemma {:induction false} CountIs(count: int, n: nat, ss: seq<State>, m: nat)
    requires m <= n <= 8 && IsRun(SETUP, Market(count)[..n], ss)
    ensures ss[m].schedule.params.pivotLowsToEnter == if m <= 1 then 0 else count
    ensures m <= 1 ==> ss[m].schedule.runMLPeriod == ML_PERIOD && ss[m].schedule.firstTime == (m == 0)
  {
    hide Moves, Market;
    if m == 0 {
    } else {
      CountIs(count, n, ss, m - 1);
      StillUntouched(count, n, ss);
      assert Untouched(SETUP, ss[m - 1]);
      ScheduleStep(SETUP, Market(count)[..n], ss, m - 1);
    }
  }

  /** Whether the next of the nine calls is safe. */
  lemma {:induction false} NextCall(count: int, n: nat, ss: seq<State>)
    requires n <= 8 && IsRun(SETUP, Market(count)[..n], ss)
    ensures Safe(ss[n], CandlesOf(Market(count)[..n + 1]), Asks(count))
       <==> n == 0 || (count != -1 && (n == 8 ==> count >= 1))
  {
    hide Moves, Market, TurningPivots, TurningInputs, Safe, PivotRuns.Run;
    var ins := Market(count);
    MarketTurns(count, 9);
    assert ins[..9] == ins;
    MarketTurns(count, n + 1);
    NextIsSafeIff(SETUP, ins, n, ss);
    PivotsOfTurning(ins[..n + 1]);
    FewTurns(n + 1);
    CountIs(count, n, ss, n);
    StillUntouched(count, n, ss);
    assert Untouched(SETUP, ss[n]);
  }

  lemma {:induction false} RunUpTo(count: int, n: nat) returns (ss: seq<State>)
    requires n <= 8 && (count == -1 ==> n <= 1)
    ensures IsRun(SETUP, Market(count)[..n], ss) && |ss| == n + 1
  {
    hide Moves, Market, Safe, IsRun;
    if n == 0 {
      ss := EmptyRun(count);
    } else {
      var rs := RunUpTo(count, n - 1);
      NextCall(count, n - 1, rs);
      MarketTurns(count, 9);
      assert Market(count)[..9] == Market(count);
      var s' := Step(rs[n - 1], CandlesOf(Market(count)[..n]), SETUP.risk, SETUP.lev, Asks(count));
      RunGrows(SETUP, Market(count), n - 1, rs, s');
      ss := rs + [s'];
    }
  }

  lemma {:induction false} EmptyRun(count: int) returns (ss: seq<State>)
    ensures IsRun(SETUP, Market(count)[..0], ss)
  {
    MarketTurns(count, 0);
    ss := [Initial(SETUP)];
  }

  /** From the start of a process, with a count of zero or less: the ninth call, the first with four pivot
      lows, is not safe; with a count of -1 the second call is not. */
  lemma {:induction false} NoLowsPanics(count: int) returns (n: nat, ss: seq<State>)
    requires count <= 0
    ensures n == if count == -1 then 1 else 8
    ensures IsRun(SETUP, Market(count)[..n], ss) && |ss| == n + 1
    ensures !Safe(ss[n], CandlesOf(Market(count)[..n + 1]), Asks(count))
  {
    hide IsRun, Safe, Market;
    n := if count == -1 then 1 else 8;
    ss := RunUpTo(count, n);
    NextCall(count, n, ss);
  }
}
