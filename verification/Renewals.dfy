/** When strat1 renews its parameters, over whole runs. */
module Renewals {
  import opened EntryLog
  import opened Strategy
  import opened StrategyRuns

  /** The globals as a process starts: all parameters zero, the first renewal due on the second call. */
  const PROCESS_START := Schedule(true, ML_PERIOD, Params(0, 0, 0.0, 0, [Target(0.0, 100.0)]))

  /** The counter is one of 0 .. 11, as every call keeps it. */
  ghost predicate Counting(g: Schedule) {
    0 <= g.runMLPeriod <= ML_PERIOD
  }

  /** The counter goes round once in twelve calls; only the very first call of a process leaves it. */
  lemma {:induction false} CounterIs(g: Schedule, n: nat)
    requires Counting(g)
    ensures CounterAfter(g, n)
         == (g.firstTime && n == 0, (g.runMLPeriod + n - if g.firstTime && n > 0 then 1 else 0) % (ML_PERIOD + 1))
  {
    if n == 0 {
    } else {
      CounterIs(g, n - 1);
    }
  }

  lemma {:induction false} ScheduleStep(u: Setup, ins: seq<Input>, ss: seq<State>, i: nat)
    requires IsRun(u, ins, ss) && i < |ins|
    ensures ss[i + 1].schedule == Renewed(ss[i].schedule, ss[i].account.posLongSize, ins[i].ml)
  {
    hide Moves, Inv, Traded, TradeSafe;
    RunLinks(u, ins, ss, i);
  }

  /** The counter goes round once in twelve candles; only the very first call of a process leaves it. */
  lemma {:induction false} CounterAt(u: Setup, ins: seq<Input>, ss: seq<State>, n: nat)
    requires IsRun(u, ins, ss) && n <= |ins| && Counting(u.globals)
    ensures ss[n].schedule.firstTime == (u.globals.firstTime && n == 0)
    ensures ss[n].schedule.runMLPeriod
            == (u.globals.runMLPeriod + n - if u.globals.firstTime && n > 0 then 1 else 0) % 12
  {
    hide Moves;
    RunCounter(u, ins, ss, n);
    CounterIs(u.globals, n);
  }

  lemma {:induction false} FullOnceInTwelve(x: int, d: nat)
    requires x % (ML_PERIOD + 1) == ML_PERIOD && 0 < d <= ML_PERIOD + 1
    ensures (x + d) % (ML_PERIOD + 1) == ML_PERIOD <==> d == ML_PERIOD + 1
  {
    var q := x / (ML_PERIOD + 1);
    assert x + d == (ML_PERIOD + 1) * (q + 1) + (d - 1);
  }

  /** Due candles are twelve apart. */
  lemma {:induction false} DueEveryTwelfth(g: Schedule, i: nat)
    requires Counting(g) && Due(g, i)
    ensures Due(g, i + ML_PERIOD + 1) && forall j :: i < j <= i + ML_PERIOD ==> !Due(g, j)
  {
    hide CounterAfter;
    var x := if g.firstTime then g.runMLPeriod + i - 1 else g.runMLPeriod + i;
    CounterIs(g, i);
    assert g.firstTime ==> i > 0;
    forall j: nat | i < j <= i + ML_PERIOD + 1 ensures Due(g, j) <==> j == i + ML_PERIOD + 1 {
      FullOnceInTwelve(x, j - i);
      CounterIs(g, j);
      assert x + (j - i) == if g.firstTime then g.runMLPeriod + j - 1 else g.runMLPeriod + j;
    }
  }

  /** In every run the parameters change on every twelfth candle only, and only while flat. */
  lemma {:induction false} RenewedEveryTwelfth(u: Setup, ins: seq<Input>, ss: seq<State>, i: nat)
    requires IsRun(u, ins, ss) && i < |ins|
    ensures ss[i + 1].schedule.params
            == if Due(u.globals, i) && ss[i].account.posLongSize == 0.0 then ins[i].ml else ss[i].schedule.params
    ensures Counting(u.globals) && Due(u.globals, i) ==>
              Due(u.globals, i + 12) && forall j :: i < j < i + 12 ==> !Due(u.globals, j)
  {
    hide Moves, GoodStart, GoodInputs;
    if Counting(u.globals) && Due(u.globals, i) {
      DueEveryTwelfth(u.globals, i);
    }
    RunCounter(u, ins, ss, i);
    ScheduleStep(u, ins, ss, i);
  }

  /** From the start of a process the renewals fall on candles 1, 13, 25 and so on. */
  lemma {:induction false} DueFromStart(i: nat)
    ensures Due(PROCESS_START, i) <==> i % 12 == 1
  {
    hide CounterAfter;
    CounterIs(PROCESS_START, i);
  }

  /** No parameters in force ask for more lows than those at the start and those returned. */
  lemma {:induction false} CountStaysBelow(u: Setup, ins: seq<Input>, ss: seq<State>, n: nat, most: int)
    requires IsRun(u, ins, ss) && n <= |ins| && u.globals.params.pivotLowsToEnter <= most
    requires forall i :: 0 <= i < |ins| ==> ins[i].ml.pivotLowsToEnter <= most
    ensures ss[n].schedule.params.pivotLowsToEnter <= most
  {
    hide Moves, GoodStart, GoodInputs;
    if n == 0 {
    } else {
      CountStaysBelow(u, ins, ss, n - 1, most);
      ScheduleStep(u, ins, ss, n - 1);
    }
  }

  /** The parameters in force are those of the last renewal. */
  lemma {:induction false} ParamsStay(u: Setup, ins: seq<Input>, ss: seq<State>, a: nat, b: nat)
    requires IsRun(u, ins, ss) && a <= b <= |ins|
    requires forall i :: a <= i < b ==> !Due(u.globals, i)
    ensures ss[b].schedule.params == ss[a].schedule.params
  {
    hide Moves, Due;
    if a == b {
    } else {
      ParamsStay(u, ins, ss, a, b - 1);
      RenewedEveryTwelfth(u, ins, ss, b - 1);
    }
  }
}
