/** The fetch and the strategy together: what strat1 has run over at every point of a replay. */
module RangeBacktest {
  import opened ChunkGaps
  import opened Replay
  import opened Pipeline
  import opened Deliveries
  import opened GapReplay
  import opened TradeLog
  import opened Strategy
  import opened Strat1
  import opened StrategyRuns
  import opened Backtest
  import opened Accounting
  import opened Indicators
  import PivotLabels

  /** The replayed candles with what the machine-learning call returns on each of them. */
  function InputsOf(bars: seq<Bar>, mls: nat -> Params): (ins: seq<Input>)
    ensures |ins| == |bars| && forall i :: 0 <= i < |bars| ==> ins[i] == Input(bars[i].candle, mls(i))
  {
    seq(|bars|, i requires 0 <= i < |bars| => Input(bars[i].candle, mls(i)))
  }

  /** A positive close. */
  predicate Closing(bar: Bar) {
    bar.candle.close > 0.0
  }

  ghost predicate AllClosing(bars: seq<Bar>) {
    forall i :: 0 <= i < |bars| ==> Closing(bars[i])
  }

  /** The calls return usable take-profit maps and, on due candles, ask for at least one low; so does the start. */
  ghost predicate UsableCalls(u: Setup, mls: nat -> Params) {
    && GoodStart(u.globals) && StartAsksLows(u.globals)
    && forall i: nat :: GoodParams(mls(i)) && (Due(u.globals, i) ==> mls(i).pivotLowsToEnter >= 1)
  }

  lemma {:induction false} InputsUsable(u: Setup, bars: seq<Bar>, mls: nat -> Params)
    requires UsableCalls(u, mls) && AllClosing(bars)
    ensures GoodInputs(InputsOf(bars, mls)) && AsksLows(u, InputsOf(bars, mls))
  {
    var ins := InputsOf(bars, mls);
    forall i | 0 <= i < |ins| ensures ins[i].candle.close > 0.0 {
      assert Closing(bars[i]);
    }
  }

  lemma {:induction false} InputsExtend(bars: seq<Bar>, more: seq<Bar>, mls: nat -> Params)
    requires bars <= more
    ensures InputsOf(bars, mls) <= InputsOf(more, mls)
  {
  }

  lemma {:induction false} EmittedClose(chunks: seq<Chunk>, bars: seq<Bar>)
    requires FromChunks(bars, chunks) && AllClosing(AllBars(chunks))
    ensures AllClosing(bars)
  {
    forall i | 0 <= i < |bars| ensures Closing(bars[i]) {
      assert InChunks(bars[i], chunks);
      var k :| 0 <= k < |chunks| && bars[i] in chunks[k].bars;
      ChunkInAll(chunks, k, bars[i]);
    }
  }

  lemma {:induction false} EmittedGrows(chunks: seq<Chunk>, startTime: int, endTime: int, zeroTime: int,
                                        ss: seq<Sys>, steps: seq<Step>, n: nat, m: nat)
    requires IsExecution(chunks, startTime, endTime, zeroTime, ss, steps) && n <= m < |ss|
    ensures ss[n].cursor.emitted <= ss[m].cursor.emitted
  {
    if n == m {
    } else {
      EmittedGrows(chunks, startTime, endTime, zeroTime, ss, steps, n, m - 1);
      ReplayInOrder(chunks, startTime, endTime, zeroTime, ss, steps, m);
    }
  }

  /** The beginning of states is the run over bars, and there is no other. */
  ghost predicate GoesOnFrom(u: Setup, bars: seq<Bar>, mls: nat -> Params, states: seq<State>) {
    && |bars| < |states| && IsRun(u, InputsOf(bars, mls), states[..|bars| + 1])
    && forall before :: IsRun(u, InputsOf(bars, mls), before) ==> before == states[..|bars| + 1]
  }

  lemma {:induction false} RunGoesOnFrom(u: Setup, bars: seq<Bar>, more: seq<Bar>, states: seq<State>,
                                         mls: nat -> Params)
    requires bars <= more && IsRun(u, InputsOf(more, mls), states)
    ensures GoesOnFrom(u, bars, mls, states)
  {
    hide Moves;
    InputsExtend(bars, more, mls);
    RunPrefix(u, InputsOf(more, mls), states, |bars|);
    assert InputsOf(more, mls)[..|bars|] == InputsOf(bars, mls);
    forall before | IsRun(u, InputsOf(bars, mls), before) ensures before == states[..|bars| + 1] {
      RunGoesOn(u, bars, before, more, states, mls);
    }
  }

  /** At every point of every interleaving strat1 has exactly one run over the candles replayed so far, and it
      goes on from the run at every earlier point. */
  lemma {:induction false} ReplayRuns(chunks: seq<Chunk>, startTime: int, endTime: int, zeroTime: int,
                                      ss: seq<Sys>, steps: seq<Step>, n: nat, u: Setup, mls: nat -> Params)
    returns (states: seq<State>)
    requires IsExecution(chunks, startTime, endTime, zeroTime, ss, steps) && n < |ss|
    requires UsableCalls(u, mls) && AllClosing(AllBars(chunks))
    ensures IsRun(u, InputsOf(ss[n].cursor.emitted, mls), states)
    ensures forall k | 0 <= k <= n :: GoesOnFrom(u, ss[k].cursor.emitted, mls, states)
  {
    hide IsExecution, IsRun, GoesOnFrom;
    var bars := ss[n].cursor.emitted;
    ReplayInOrder(chunks, startTime, endTime, zeroTime, ss, steps, n);
    EmittedClose(chunks, bars);
    InputsUsable(u, bars, mls);
    states := RunExists(u, InputsOf(bars, mls));
    forall k | 0 <= k <= n ensures GoesOnFrom(u, ss[k].cursor.emitted, mls, states) {
      EmittedGrows(chunks, startTime, endTime, zeroTime, ss, steps, k, n);
      RunGoesOnFrom(u, ss[k].cursor.emitted, bars, states, mls);
    }
  }

  lemma {:induction false} RunGoesOn(u: Setup, bars: seq<Bar>, before: seq<State>, more: seq<Bar>, states: seq<State>,
                                     mls: nat -> Params)
    requires bars <= more
    requires IsRun(u, InputsOf(bars, mls), before) && IsRun(u, InputsOf(more, mls), states)
    ensures before <= states
  {
    hide Moves;
    InputsExtend(bars, more, mls);
    RunsAgree(u, InputsOf(bars, mls), before, InputsOf(more, mls), states, |bars|);
    assert before[..|bars| + 1] == before;
  }

  /** In a range without gaps a finished replay has given strat1 exactly the candle of every minute, in order. */
  lemma {:induction false} FullRangeRun(chunks: seq<Chunk>, startTime: int, endTime: int, zeroTime: int,
                                        ss: seq<Sys>, steps: seq<Step>, n: nat, u: Setup, mls: nat -> Params)
    returns (states: seq<State>)
    requires Complete(chunks, startTime, endTime)
    requires IsExecution(chunks, startTime, endTime, zeroTime, ss, steps) && n < |ss| && ss[n].done
    requires UsableCalls(u, mls) && AllClosing(AllBars(chunks))
    ensures ss[n].cursor.emitted == AllBars(chunks) && EveryMinute(AllBars(chunks), startTime, endTime)
    ensures IsRun(u, InputsOf(ss[n].cursor.emitted, mls), states)
  {
    hide IsRun;
    StaysQuiet(chunks, startTime, endTime, zeroTime, ss, steps, n);
    AllBarsAreEveryMinute(chunks, startTime, endTime);
    states := ReplayRuns(chunks, startTime, endTime, zeroTime, ss, steps, n, u, mls);
  }

  /** Whatever order the chunks arrive in, the run is the same. */
  lemma {:induction false} OrderDoesNotMatter(chunks: seq<Chunk>, startTime: int, endTime: int, zeroTime: int,
                                              ss: seq<Sys>, steps: seq<Step>, n: nat,
                                              tt: seq<Sys>, others: seq<Step>, m: nat,
                                              u: Setup, mls: nat -> Params, states: seq<State>, states': seq<State>)
    requires Complete(chunks, startTime, endTime)
    requires IsExecution(chunks, startTime, endTime, zeroTime, ss, steps) && n < |ss| && ss[n].done
    requires IsExecution(chunks, startTime, endTime, zeroTime, tt, others) && m < |tt| && tt[m].done
    requires IsRun(u, InputsOf(ss[n].cursor.emitted, mls), states)
    requires IsRun(u, InputsOf(tt[m].cursor.emitted, mls), states')
    ensures states == states'
  {
    hide IsRun;
    StaysQuiet(chunks, startTime, endTime, zeroTime, ss, steps, n);
    StaysQuiet(chunks, startTime, endTime, zeroTime, tt, others, m);
    RunGoesOn(u, AllBars(chunks), states, AllBars(chunks), states', mls);
    RunGoesOn(u, AllBars(chunks), states', AllBars(chunks), states, mls);
  }

  // ---------- the replay loop ----------

  lemma {:induction false} InputsNext(bars: seq<Bar>, bar: Bar, mls: nat -> Params)
    ensures InputsOf(bars + [bar], mls) == InputsOf(bars, mls) + [Input(bar.candle, mls(|bars|))]
  {
  }

  /** One candle of a pass: strat1 is called on it if it is the one required. */
  method ReplayBar(cursor: Backtester, session: Session, candle: Bar, last: Bar, endTime: int, u: Setup,
                   mls: nat -> Params, ghost ss0: seq<State>)
    returns (restartLoop: bool, ghost ss: seq<State>)
    requires !cursor.stuck && UsableCalls(u, mls) && Closing(candle)
    requires session.Follows(u, InputsOf(cursor.emitted, mls), ss0)
    modifies cursor`requiredTime, cursor`emitted, cursor`stuck
    modifies session, session.strategySim, session.store`trades, session.store.lists, session.globals, session.previous,
             session.display
    ensures (cursor.View(), restartLoop) == AtBar(old(cursor.View()), candle, last, cursor.allEmptyCandles, endTime)
    ensures !restartLoop ==> !cursor.stuck
    ensures session.Follows(u, InputsOf(cursor.emitted, mls), ss)
  {
    hide Session.Follows, GoodStart, StartAsksLows, SkipGap;
    ss := ss0;
    if cursor.requiredTime == candle.start {
      InputsNext(cursor.emitted, candle, mls);
      ss := session.Next(u, InputsOf(cursor.emitted, mls), Input(candle.candle, mls(|cursor.emitted|)), ss);
    }
    restartLoop := cursor.AtCandle(candle, last, endTime);
  }

  /** One pass: the cursor goes over the arrived candles, and strat1 is called on each that is replayed. */
  method ReplayPass(cursor: Backtester, session: Session, arrived: seq<Bar>, endTime: int, u: Setup, mls: nat -> Params,
                    ghost ss0: seq<State>)
    returns (ghost ss: seq<State>)
    requires !cursor.stuck && UsableCalls(u, mls) && AllClosing(arrived)
    requires session.Follows(u, InputsOf(cursor.emitted, mls), ss0)
    modifies cursor`requiredTime, cursor`emitted, cursor`stuck
    modifies session, session.strategySim, session.store`trades, session.store.lists, session.globals, session.previous,
             session.display
    ensures cursor.View() == Pass(old(cursor.View()), arrived, 0, cursor.allEmptyCandles, endTime)
    ensures session.Follows(u, InputsOf(cursor.emitted, mls), ss)
  {
    hide Session.Follows, UsableCalls, AtBar, InputsOf;
    ghost var before := cursor.View();
    ss := ss0;
    var n := 0;
    while n < |arrived|
      invariant 0 <= n <= |arrived| && !cursor.stuck
      invariant Pass(before, arrived, 0, cursor.allEmptyCandles, endTime)
             == Pass(cursor.View(), arrived, n, cursor.allEmptyCandles, endTime)
      invariant session.Follows(u, InputsOf(cursor.emitted, mls), ss)
    {
      var restartLoop;
      restartLoop, ss := ReplayBar(cursor, session, arrived[n], arrived[|arrived| - 1], endTime, u, mls, ss);
      if restartLoop {
        return;
      }
      n := n + 1;
    }
  }

  /** One message and one pass at a time, until the cursor stands at the end time. */
  method ReplayAll(u: Setup, startTime: int, endTime: int, ds: seq<Delivery>, mls: nat -> Params,
                   globals: Globals, previous: Emas, display: PivotLabels.Display)
    returns (received: nat, cursor: Backtester, session: Session, ghost ss: seq<State>)
    requires UsableCalls(u, mls) && forall d :: d in ds ==> AllClosing(d.arrived)
    requires globals.View() == u.globals && display.tops == []
    modifies globals, previous, display
    ensures received <= |ds| && forall n: nat :: 0 < n < received ==> GoesOn(startTime, endTime, ds, n)
    ensures received < |ds| ==> cursor.requiredTime == endTime || cursor.stuck
    ensures AllReceived(startTime, endTime, ds) ==> received == |ds|
    ensures cursor.View() == CursorAfter(startTime, endTime, ds[..received])
    ensures session.display == display && session.Follows(u, InputsOf(cursor.emitted, mls), ss)
  {
    hide Session.Follows, Pass, GoodStart, StartAsksLows;
    cursor := new Backtester(startTime);
    session := new Session(u, globals, previous, display);
    ss := [Initial(u)];
    received := 0;
    while received < |ds|
      invariant received <= |ds| && !cursor.stuck
      invariant cursor.View() == CursorAfter(startTime, endTime, ds[..received])
      invariant cursor.allEmptyCandles == Messages(ds[..received])
      invariant forall n: nat :: 0 < n <= received ==> GoesOn(startTime, endTime, ds, n)
      invariant session.Follows(u, InputsOf(cursor.emitted, mls), ss)
    {
      var d := ds[received];
      MessagesNext(ds, received);
      cursor.allEmptyCandles := cursor.allEmptyCandles + {d.message};
      ss := ReplayPass(cursor, session, d.arrived, endTime, u, mls, ss);
      received := received + 1;
      if cursor.stuck || cursor.requiredTime == endTime {
        assert !GoesOn(startTime, endTime, ds, received);
        break;
      }
    }
  }

  /** computeBacktest over what its channel delivers: a run of strat1 over exactly the candles the cursor
      takes, with its rows, indicators and labels. */
  method ComputeBacktest(u: Setup, startTime: int, endTime: int, ds: seq<Delivery>, mls: nat -> Params,
                         globals: Globals, previous: Emas, display: PivotLabels.Display)
    returns (received: nat, cursor: Backtester, session: Session, ghost ss: seq<State>)
    requires UsableCalls(u, mls) && forall d :: d in ds ==> AllClosing(d.arrived)
    requires globals.View() == u.globals && display.tops == []
    modifies globals, previous, display
    ensures received <= |ds| && forall n: nat :: 0 < n < received ==> GoesOn(startTime, endTime, ds, n)
    ensures received < |ds| ==> cursor.requiredTime == endTime || cursor.stuck
    ensures AllReceived(startTime, endTime, ds) ==> received == |ds|
    ensures cursor.View() == CursorAfter(startTime, endTime, ds[..received])
    ensures var ins := InputsOf(cursor.emitted, mls);
            && IsRun(u, ins, ss) && session.strategySim.View() == ss[|ins|].account
            && session.rows == Collected(ss, |ins|)
            && Charted(session.smas, session.emas, ClosesOf(CandlesOf(ins)))
            && |display.tops| == |ins| && PivotLabels.Marks(display.tops, ss[|ins|].pivots.ph)
    ensures session.strategySim.posLongSize == 0.0 ==> session.strategySim.totalEquity - u.equity == NetOf(session.rows)
  {
    received, cursor, session, ss := ReplayAll(u, startTime, endTime, ds, mls, globals, previous, display);
    session.Conclude(u, InputsOf(cursor.emitted, mls), ss);
  }

}
