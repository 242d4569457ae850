/** The cooldown after a trade, over whole runs: where the pivot of the next entry lies. */
module Cooldown {
  import opened Records
  import opened Executor
  import opened TrendBreak
  import opened EntryWatch
  import opened Strategy
  import opened OpenTrade
  import opened StrategyRuns
  import opened TradeTheorems
  import opened LossBound
  import opened RunLoss
  import PivotTheorems
  import PivotRuns

  // ---------- the exit ----------

  lemma {:induction false} SettledLog(x: Account, fills: seq<Fill>, rel: nat)
    requires rel !in x.actions && forall i :: 0 <= i < |fills| ==> fills[i].candle == rel
    ensures var acts := ActionsAt(Settled(x, fills).actions, rel);
            |acts| == |fills| && forall i :: 0 <= i < |fills| ==> acts[i].kind == fills[i].kind
  {
    if |fills| == 0 {
    } else {
      SettledLog(x, fills[..|fills| - 1], rel);
    }
  }

  /** The candle closes the trade at its stop. */
  predicate StoppedOut(e: DataPoint, rel: nat, c: Candle) {
    !Expired(e, rel) && Stopped(e, c)
  }

  lemma {:induction false} FillsKind(e: DataPoint, pos: real, c: Candle, rel: nat)
    ensures var fills := FillsAt(e, pos, c, rel);
            && (forall i :: 0 <= i < |fills| ==> fills[i].candle == rel)
            && (|fills| > 0 ==> (fills[0].kind == SL <==> StoppedOut(e, rel, c)))
  {
  }

  /** The candle that closes a trade breaks its record and logs the exit, as a stop-loss if it is one. */
  lemma {:induction false} LinkLogsExit(s: State, s': State, candles: seq<Candle>, risk: real, lev: int, ml: Params,
                                        rel: nat, c: Candle)
    requires Link(s, s', candles, risk, lev, ml) && Open(s) && !Open(s') && rel + 1 == |candles| && c == candles[rel]
    ensures |s.trades| > 0 && rel >= 1
    ensures var acts := ActionsAt(s'.account.actions, rel);
            |acts| > 0 && (acts[0].kind == SL <==> StoppedOut(LastTrade(s.trades), rel, c))
  {
    hide Settled, FillsAt, TradeSafe, Priceable, MoneyOk, Managed, Trade;
    LinkSettles(s, s', candles, risk, lev, ml, rel, c);
    OpenLater(s, s', candles, risk, lev, ml);
    var fills := FillsAt(LastTrade(s.trades), s.account.posLongSize, c, rel);
    FillsKind(LastTrade(s.trades), s.account.posLongSize, c, rel);
    SettledLog(WithRates(s.account), fills, rel);
    NothingSettled(WithRates(s.account));
    assert |fills| == 0 ==> fills == [];
  }

  lemma {:induction false} NothingSettled(x: Account)
    ensures Settled(x, []) == x
  {
  }

  lemma {:induction false} OpenLater(s: State, s': State, candles: seq<Candle>, risk: real, lev: int, ml: Params)
    requires Link(s, s', candles, risk, lev, ml) && Open(s)
    ensures |candles| >= 2
  {
    OpenIsManaged(s.trades, WithRates(s.account), s'.pivots.pl, candles, risk, lev, s'.schedule.params);
  }

  // ---------- while flat ----------

  /** The pivot low a call would enter on lies beyond the trading index the call works with. */
  ghost predicate Beyond(s: State, s': State, candles: seq<Candle>) {
    && |s'.pivots.pl| > 0
    && s'.pivots.pl[|s'.pivots.pl| - 1]
       > MinTradingIndex(s.trades, LatestActions(s.account.actions, |candles| - 2),
           s'.schedule.params.slCooldownCandles)
  }

  /** A flat candle that does not enter leaves the log alone, and the trades too, unless a buy was refused. */
  lemma {:induction false} LinkStaysFlat(s: State, s': State, candles: seq<Candle>, risk: real, lev: int, ml: Params)
    requires Link(s, s', candles, risk, lev, ml) && !Open(s) && !Open(s')
    ensures s'.account.actions == s.account.actions
    ensures || s'.trades == s.trades
            || (|s'.trades| == |s.trades| + 1 && LastTrade(s'.trades).breakIndex == 0 && Beyond(s, s', candles))
  {
    hide LogOk, Priceable, MoneyOk, CoolingDown, Watch;
    LinkIdles(s, s', candles, risk, lev, ml);
  }

  lemma {:induction false} LinkEntersBeyond(s: State, s': State, candles: seq<Candle>, risk: real, lev: int, ml: Params)
    requires Link(s, s', candles, risk, lev, ml) && !Open(s) && Open(s')
    ensures Beyond(s, s', candles)
  {
    hide LogOk, Priceable, MoneyOk, CoolingDown, Watch, Entered;
  }

  // ---------- from an exit on ----------

  /** The candles to wait after the exit on candle x, by the parameters in force on candle m. */
  ghost function Wait(ins: seq<Input>, ss: seq<State>, x: nat, m: nat): int
    requires x < |ins| && |ss| == |ins| + 1 && m < |ins| && |ss[x].trades| > 0
  {
    if StoppedOut(LastTrade(ss[x].trades), x, ins[x].candle) then ss[m + 1].schedule.params.slCooldownCandles else 0
  }

  /** The latest pivot low on candle m lies more than the cooldown after candle x. */
  ghost predicate Waited(ins: seq<Input>, ss: seq<State>, x: nat, m: nat)
    requires x < |ins| && |ss| == |ins| + 1 && m < |ins| && |ss[x].trades| > 0
  {
    && |ss[m + 1].pivots.pl| > 0
    && ss[m + 1].pivots.pl[|ss[m + 1].pivots.pl| - 1] > x + Wait(ins, ss, x, m)
  }

  /** Candle x closed a trade and none was open on candles x + 1 .. n - 1. */
  ghost predicate FlatSince(ss: seq<State>, x: nat, n: nat)
    requires n < |ss|
  {
    x < n && Open(ss[x]) && forall i :: x < i <= n ==> !Open(ss[i])
  }

  /** No trade was stored on these candles: no buy was refused. */
  ghost predicate NoneStored(ss: seq<State>, x: nat, n: nat)
    requires x < n < |ss|
  {
    |ss[n].trades| == |ss[x + 1].trades|
  }

  /** What is known n - x - 1 candles after the exit: the log ends with it, and either its record is still the
      last one, or a buy was refused on a candle on which the cooldown was over. */
  ghost predicate After(ins: seq<Input>, ss: seq<State>, x: nat, n: nat)
    requires x < n <= |ins| && |ss| == |ins| + 1
  {
    var latest := LatestActions(ss[n].account.actions, n - 1);
    && |ss[x].trades| > 0 && |ss[n].trades| > 0 && |ss[n].trades| >= |ss[x + 1].trades|
    && |latest| > 0 && (latest[0].kind == SL <==> StoppedOut(LastTrade(ss[x].trades), x, ins[x].candle))
    && (if NoneStored(ss, x, n) then LastTrade(ss[n].trades).breakIndex == x
        else LastTrade(ss[n].trades).breakIndex == 0 && exists m :: x < m < n && Waited(ins, ss, x, m))
  }

  lemma {:induction false} AfterExit(u: Setup, ins: seq<Input>, ss: seq<State>, x: nat)
    requires IsRun(u, ins, ss) && x < |ins| && Open(ss[x]) && !Open(ss[x + 1])
    ensures After(ins, ss, x, x + 1)
  {
    hide Moves, Link, Inv, StoppedOut;
    RunLinks(u, ins, ss, x);
    LinkLogsExit(ss[x], ss[x + 1], CandlesOf(ins[..x + 1]), u.risk, u.lev, ins[x].ml, x, ins[x].candle);
    OpenCandle(u, ins, ss, x);
    PositionIsCovered(u, ins, ss, x + 1);
  }

  lemma {:induction false} NothingLogged(actions: map<int, seq<Action>>, n: nat)
    requires LogOk(actions, n)
    ensures LatestActions(actions, n) == LatestActions(actions, n - 1)
  {
    assert n !in actions;
  }

  lemma {:induction false} LogFits(u: Setup, ins: seq<Input>, ss: seq<State>, n: nat)
    requires IsRun(u, ins, ss) && n <= |ins|
    ensures LogOk(ss[n].account.actions, n)
  {
    hide Moves;
    RunKeepsInv(u, ins, ss, n);
  }

  /** Beyond the trading index of the exit's own record is beyond the exit by the cooldown. */
  lemma {:induction false} BeyondWaits(ins: seq<Input>, ss: seq<State>, x: nat, n: nat)
    requires x < n < |ins| && |ss| == |ins| + 1 && After(ins, ss, x, n) && NoneStored(ss, x, n)
    requires Beyond(ss[n], ss[n + 1], CandlesOf(ins[..n + 1]))
    ensures Waited(ins, ss, x, n)
  {
    hide StoppedOut, LatestActions;
  }

  lemma {:induction false} AfterNext(u: Setup, ins: seq<Input>, ss: seq<State>, x: nat, n: nat)
    requires IsRun(u, ins, ss) && x < n < |ins| && After(ins, ss, x, n) && !Open(ss[n]) && !Open(ss[n + 1])
    ensures After(ins, ss, x, n + 1)
  {
    hide Moves, Link, Inv, StoppedOut, LatestActions, LogOk, Beyond;
    var candles := CandlesOf(ins[..n + 1]);
    RunLinks(u, ins, ss, n);
    LinkStaysFlat(ss[n], ss[n + 1], candles, u.risk, u.lev, ins[n].ml);
    LogFits(u, ins, ss, n);
    NothingLogged(ss[n].account.actions, n);
    if ss[n + 1].trades != ss[n].trades {
      if NoneStored(ss, x, n) {
        BeyondWaits(ins, ss, x, n);
        assert Waited(ins, ss, x, n);
      }
    }
  }

  lemma {:induction false} WhileFlat(u: Setup, ins: seq<Input>, ss: seq<State>, x: nat, n: nat)
    requires IsRun(u, ins, ss) && n <= |ins| && FlatSince(ss, x, n)
    ensures After(ins, ss, x, n)
  {
    hide Moves, After;
    if n == x + 1 {
      AfterExit(u, ins, ss, x);
    } else {
      WhileFlat(u, ins, ss, x, n - 1);
      AfterNext(u, ins, ss, x, n - 1);
    }
  }

  // ---------- the next entry ----------

  /** The latest pivot low never moves back. */
  lemma {:induction false} LatestLowGrows(u: Setup, ins: seq<Input>, ss: seq<State>, a: nat, b: nat)
    requires IsRun(u, ins, ss) && a <= b <= |ins| && |ss[a].pivots.pl| > 0
    ensures |ss[b].pivots.pl| > 0
    ensures ss[a].pivots.pl[|ss[a].pivots.pl| - 1] <= ss[b].pivots.pl[|ss[b].pivots.pl| - 1]
  {
    hide Moves, PivotRuns.Run;
    RunKeepsInv(u, ins, ss, a);
    RunKeepsInv(u, ins, ss, b);
    var high, low := Highs(CandlesOf(ins[..b])), Lows(CandlesOf(ins[..b]));
    assert high[..a] == Highs(CandlesOf(ins[..a])) && low[..a] == Lows(CandlesOf(ins[..a]));
    PivotTheorems.ListsOnlyGrow(high, low, a);
    PivotTheorems.LowsAreIncreasing(high, low);
  }

  /** The pivot of an entry on candle k lies more than the cooldown of candle m after candle x. */
  ghost predicate EntersAfter(ins: seq<Input>, ss: seq<State>, x: nat, k: nat, m: nat)
    requires x < |ins| && |ss| == |ins| + 1 && k < |ins| && m < |ins| && |ss[x].trades| > 0
  {
    && |ss[k + 1].pivots.pl| > 0
    && k > ss[k + 1].pivots.pl[|ss[k + 1].pivots.pl| - 1] > x + Wait(ins, ss, x, m)
  }

  /** The pivot of every entry lies after the candle that closed the trade before it, and if that was a
      stop-loss by more than the cooldown in force: on the candle of the entry, or, when a buy too small to be
      made was stored in between, on the candle of that one. */
  lemma {:induction false} EntryRespectsCooldown(u: Setup, ins: seq<Input>, ss: seq<State>, x: nat, k: nat)
    requires IsRun(u, ins, ss) && x < k < |ins| && FlatSince(ss, x, k) && Open(ss[k + 1])
    ensures |ss[x].trades| > 0
    ensures exists m :: x < m <= k && EntersAfter(ins, ss, x, k, m) && (NoneStored(ss, x, k) ==> m == k)
  {
    hide Moves, Link, Inv, StoppedOut, LatestActions, Beyond, Wait;
    WhileFlat(u, ins, ss, x, k);
    EntryOnRuns(u, ins, ss, k);
    RunLinks(u, ins, ss, k);
    LinkEntersBeyond(ss[k], ss[k + 1], CandlesOf(ins[..k + 1]), u.risk, u.lev, ins[k].ml);
    if NoneStored(ss, x, k) {
      BeyondWaits(ins, ss, x, k);
      assert EntersAfter(ins, ss, x, k, k);
    } else {
      var m :| x < m < k && Waited(ins, ss, x, m);
      LatestLowGrows(u, ins, ss, m + 1, k + 1);
      assert EntersAfter(ins, ss, x, k, m);
    }
  }
}
