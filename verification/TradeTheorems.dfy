/** What happens to positions in every run of strat1: sizes, done flags, exits and their deadline. */
module TradeTheorems {
  import opened Records
  import opened Executor
  import opened ExecutorLaws
  import opened TradeLog
  import opened TrendBreak
  import opened EntryLog
  import opened EntryWatch
  import opened Strategy
  import opened Ladder
  import opened OpenTrade
  import opened Statistics
  import opened StrategyRuns
  import PivotSpec
  import PivotRuns
  import PivotTheorems

  ghost predicate Open(s: State) {
    s.account.posLongSize > 0.0
  }

  /** After every candle the position is never negative, and while one is open the last stored
      trade is its record: its points either are absent or form a ladder whose undone points add
      up to exactly the position, the done ones coming first. */
  lemma {:induction false} PositionIsCovered(u: Setup, ins: seq<Input>, ss: seq<State>, n: nat)
    requires IsRun(u, ins, ss) && n <= |ins|
    ensures ss[n].account.posLongSize >= 0.0
    ensures Open(ss[n]) ==> |ss[n].trades| > 0 && OpenEntry(LastTrade(ss[n].trades), ss[n].account.posLongSize)
  {
    RunKeepsInv(u, ins, ss, n);
  }

  // ---------- one candle of an open trade ----------

  /** The candle closes the whole position. */
  predicate ClosesAll(e: DataPoint, rel: nat, c: Candle) {
    Expired(e, rel) || Stopped(e, c)
  }

  /** Points d .. f - 1 of the ladder fired, nothing else changed; the last point ends the trade. */
  ghost predicate Fires(s: State, s': State, rel: nat, high: real, ps: seq<MultiTPPoint>, d: nat, f: nat)
    requires |s.trades| > 0
  {
    && f <= |ps|
    && var e := LastTrade(s.trades).(multiTPs := Some(DoneUpTo(ps, f)));
    && Covers(ps, d, s.account.posLongSize) && Reaches(ps, d, f, high)
    && s'.account.posLongSize == SizeFrom(ps, f)
    && (s'.account.posLongSize == 0.0 <==> f == |ps|)
    && s'.trades == (if f == |ps| then s.trades + [Broken(e, rel, MultiTP)] else s.trades[|s.trades| - 1 := e])
  }

  /** All that a candle can do to an open trade. */
  ghost predicate Outcomes(s: State, s': State, rel: nat, c: Candle)
    requires |s.trades| > 0
  {
    var e := LastTrade(s.trades);
    && !HasEnter(ActionsAt(s'.account.actions, rel))
    && (ClosesAll(e, rel, c) ==>
          && s'.account.posLongSize == 0.0
          && s'.trades == s.trades + [Broken(e, rel, if Expired(e, rel) then Max else SL)])
    && (!ClosesAll(e, rel, c) && PointsIn(e) == [] ==>
          s'.account.posLongSize == s.account.posLongSize && s'.trades == s.trades)
    && (!ClosesAll(e, rel, c) && PointsIn(e) != [] ==>
          exists d: nat, f: nat :: Fires(s, s', rel, c.high, PointsIn(e), d, f))
  }

  lemma {:induction false} ManagedOutcomes(s: State, s': State, candles: seq<Candle>, risk: real, lev: int, ml: Params,
                                           rel: nat, c: Candle)
    requires Link(s, s', candles, risk, lev, ml) && Open(s)
    requires rel + 1 == |candles| && c == candles[rel]
    ensures |s.trades| > 0 && Outcomes(s, s', rel, c)
  {
    var x := WithRates(s.account);
    var e := LastTrade(s.trades);
    OpenIsManaged(s.trades, x, s'.pivots.pl, candles, risk, lev, s'.schedule.params);
    NoEnterWhileManaged(s.trades, x, candles);
    if ClosesAll(e, rel, candles[rel]) {
      ManagedCloses(s.trades, x, candles);
      FlatEquity(x, if Expired(e, rel) then candles[rel].close else e.slPrice, rel,
                 if Expired(e, rel) then Max else SL);
    } else if e.multiTPs.value == [] {
      ManagedWaits(s.trades, x, candles);
    } else {
      var ps := e.multiTPs.value;
      var d: nat :| Covers(ps, d, x.posLongSize);
      var f := ReachExists(ps, d, candles[rel].high);
      ManagedFires(s.trades, x, candles, ps, d, f);
      SizesStayPositive(ps, d, f);
      assert Fires(s, s', rel, candles[rel].high, ps, d, f);
    }
  }

  lemma {:induction false} NoEnterWhileManaged(trades: seq<DataPoint>, x: Account, candles: seq<Candle>)
    requires |candles| > 1 && candles[|candles| - 1].close > 0.0 && x.posLongSize > 0.0
    requires |trades| > 0 && OpenEntry(LastTrade(trades), x.posLongSize) && LogOk(x.actions, |candles| - 1)
    ensures !HasEnter(ActionsAt(Managed(trades, x, candles).1.actions, |candles| - 1))
  {
    var rel, e := |candles| - 1, LastTrade(trades);
    if ClosesAll(e, rel, candles[rel]) {
      ManagedCloses(trades, x, candles);
      OneExit(x, if Expired(e, rel) then candles[rel].close else e.slPrice, 100.0, -1.0, rel,
              if Expired(e, rel) then Max else SL, 0.0);
    } else if e.multiTPs.value == [] {
      ManagedWaits(trades, x, candles);
    } else {
      var ps := e.multiTPs.value;
      var d: nat :| Covers(ps, d, x.posLongSize);
      var f := ReachExists(ps, d, candles[rel].high);
      ManagedFires(trades, x, candles, ps, d, f);
      ManyExits(Book(trades, e.(multiTPs := Some(DoneUpTo(ps, f))), x), DoneRange(ps, d, f), rel, 0.0);
    }
  }

  /** While a position is open no candle enters again; done flags form a prefix that only grows;
      the position falls to zero exactly when the last point fires or a full close runs. */
  lemma {:induction false} OpenCandle(u: Setup, ins: seq<Input>, ss: seq<State>, i: nat)
    requires IsRun(u, ins, ss) && i < |ins| && Open(ss[i])
    ensures |ss[i].trades| > 0 && Outcomes(ss[i], ss[i + 1], i, ins[i].candle)
  {
    hide Moves, Link, Outcomes, Inv;
    RunLinks(u, ins, ss, i);
    var s, s', candles, c := ss[i], ss[i + 1], CandlesOf(ins[..i + 1]), ins[i].candle;
    ManagedOutcomes(s, s', candles, u.risk, u.lev, ins[i].ml, i, c);
  }

  // ---------- the deadline ----------

  ghost predicate OpenThrough(ss: seq<State>, a: nat, b: nat)
    requires b < |ss|
  {
    forall i :: a <= i <= b ==> Open(ss[i])
  }

  /** The deadline, stop and entry index of an open trade never change. */
  lemma {:induction false} RecordStays(u: Setup, ins: seq<Input>, ss: seq<State>, a: nat, b: nat)
    requires IsRun(u, ins, ss) && a <= b <= |ins| && OpenThrough(ss, a, b)
    ensures |ss[a].trades| > 0 && |ss[b].trades| == |ss[a].trades|
    ensures LastTrade(ss[b].trades) == LastTrade(ss[a].trades).(multiTPs := LastTrade(ss[b].trades).multiTPs)
    ensures LastTrade(ss[a].trades).multiTPs == Some([]) ==>
              ss[b].trades == ss[a].trades && ss[b].account.posLongSize == ss[a].account.posLongSize
  {
    PositionIsCovered(u, ins, ss, a);
    if a == b {
    } else {
      RecordStays(u, ins, ss, a, b - 1);
      OpenCandle(u, ins, ss, b - 1);
    }
  }

  /** A position entered on candle k with a non-zero MaxExitIndex is flat again after candle
      max(k + 1, MaxExitIndex) at the latest; ss[c] is the state after candle c - 1. */
  lemma {:induction false} ExitInTime(u: Setup, ins: seq<Input>, ss: seq<State>, k: nat, last: nat)
    requires IsRun(u, ins, ss) && k < last < |ins|
    requires !Open(ss[k]) && Open(ss[k + 1])
    requires |ss[k + 1].trades| > 0 && LastTrade(ss[k + 1].trades).maxExitIndex != 0
    requires last >= LastTrade(ss[k + 1].trades).maxExitIndex
    ensures exists c :: k + 1 < c <= last + 1 && !Open(ss[c])
  {
    if OpenThrough(ss, k + 1, last) {
      RecordStays(u, ins, ss, k + 1, last);
      OpenCandle(u, ins, ss, last);
      assert !Open(ss[last + 1]);
    }
  }

  // ---------- entries ----------

  /** The record of an entry on the last of candles, at the latest pivot low. */
  ghost predicate EntryMade(candles: seq<Candle>, s: State, s': State) {
    && |s'.pivots.pl| > 0 && |s'.trades| == |s.trades| + 1
    && var e, p, params, k := LastTrade(s'.trades), s'.pivots.pl[|s'.pivots.pl| - 1], s'.schedule.params, |candles| - 1;
       && p < k && e.actualEntryIndex == k
       && (if Confirmed(candles, s.trades, p)
           then && e.entryClose > 0.0 && e.entryLastPLIndex == p
                && p + params.maxDurationCandles < e.maxExitIndex <= k + params.maxDurationCandles
                && e.slPrice == Scaled(StopFactor(params.slPerc), candles[k].close)
           else e == NoEntry.(actualEntryIndex := k, multiTPs := Some([])))
  }

  lemma {:induction false} EnteredMakes(trades: seq<DataPoint>, x: Account, entry: nat, candles: seq<Candle>,
                                        risk: real, lev: int, params: Params)
    requires entry < |candles| && Buyable(x, candles) && x.posLongSize == 0.0
    requires Entered(trades, x, entry, candles, risk, lev, params).1.posLongSize > 0.0
    ensures var r := Entered(trades, x, entry, candles, risk, lev, params).0;
            var rel, a := |candles| - 1, FirstHigher(candles, entry, entry + 1);
            && |r| == |trades| + 1 && LastTrade(r).actualEntryIndex == rel
            && (if !Duplicate(trades, entry) && a.Some?
                then LastTrade(r).entryClose == candles[a.value].close && LastTrade(r).entryLastPLIndex == entry
                     && LastTrade(r).maxExitIndex == a.value + params.maxDurationCandles
                     && LastTrade(r).slPrice == Scaled(StopFactor(params.slPerc), candles[rel].close)
                else LastTrade(r) == NoEntry.(actualEntryIndex := rel, multiTPs := Some([])))
  {
  }

  lemma {:induction false} LinkEnters(s: State, s': State, candles: seq<Candle>, risk: real, lev: int, ml: Params)
    returns (p: nat)
    requires Link(s, s', candles, risk, lev, ml) && !Open(s) && Open(s')
    ensures |s'.pivots.pl| > 0 && p == s'.pivots.pl[|s'.pivots.pl| - 1] && p < |candles|
    ensures Buyable(WithRates(s.account), candles)
    ensures (s'.trades, s'.account)
              == Entered(s.trades, WithRates(s.account), p, candles, risk, lev, s'.schedule.params)
  {
    var x := WithRates(s.account);
    var latest := LatestActions(x.actions, |candles| - 2);
    p := EntryPivot(s.trades, latest, s'.pivots.pl, candles, s'.schedule.params).value;
  }

  lemma {:induction false} LinkMakesEntry(s: State, s': State, candles: seq<Candle>, risk: real, lev: int, ml: Params)
    requires Link(s, s', candles, risk, lev, ml) && !Open(s) && Open(s')
    requires forall i :: 0 <= i < |s'.pivots.pl| ==> s'.pivots.pl[i] + 1 < |candles|
    ensures EntryMade(candles, s, s')
  {
    var p := LinkEnters(s, s', candles, risk, lev, ml);
    EnteredMakes(s.trades, WithRates(s.account), p, candles, risk, lev, s'.schedule.params);
    var a := FirstHigher(candles, p, p + 1);
    if a.Some? {
      assert candles[a.value].high > candles[p].high;
    }
  }

  /** How a run enters a position: with a dated record and a stop when the pivot is confirmed,
      with the empty record otherwise. */
  lemma {:induction false} EntryOnRuns(u: Setup, ins: seq<Input>, ss: seq<State>, k: nat)
    requires IsRun(u, ins, ss) && k < |ins| && !Open(ss[k]) && Open(ss[k + 1])
    ensures EntryMade(CandlesOf(ins[..k + 1]), ss[k], ss[k + 1])
  {
    var candles := CandlesOf(ins[..k + 1]);
    RunLinks(u, ins, ss, k);
    PivotTheorems.LowsAreIncreasing(Highs(candles), Lows(candles));
    LinkMakesEntry(ss[k], ss[k + 1], candles, u.risk, u.lev, ins[k].ml);
  }

  lemma {:induction false} LinkLogsEntry(s: State, s': State, candles: seq<Candle>, risk: real, lev: int, ml: Params)
    requires Link(s, s', candles, risk, lev, ml) && !Open(s) && s'.trades != s.trades
    requires PivotTheorems.Increasing(s'.pivots.pl)
    requires forall i :: 0 <= i < |s'.pivots.pl| ==> 1 <= s'.pivots.pl[i] < |candles|
    ensures 1 <= s'.schedule.params.pivotLowsToEnter <= |s'.pivots.pl|
  {
    hide LogOk, Priceable, MoneyOk, CoolingDown, FirstListed, Entries, Entered;
    FirstListedIff(Lows(candles), s'.pivots.pl, s'.schedule.params.pivotLowsToEnter);
  }

  /** Whenever a run logs an entry, the pivot lows logEntry reads for its statistics are listed, and the candles
      it reads at them are there: the entry's pivot is found at the end of the list only, and as many lows as
      were asked for lie at or before it. */
  lemma {:induction false} EntryReadsInRange(u: Setup, ins: seq<Input>, ss: seq<State>, k: nat)
    requires IsRun(u, ins, ss) && k < |ins| && !Open(ss[k]) && ss[k + 1].trades != ss[k].trades
    ensures var pl, count := ss[k + 1].pivots.pl, ss[k + 1].schedule.params.pivotLowsToEnter;
            var p := |pl| - 1;
            && 1 <= count <= |pl| && (forall i :: 0 <= i < |pl| && pl[i] == pl[p] ==> i == p)
            && (forall j :: p - count < j <= p ==> j >= 0 && pl[j] <= k)
  {
    hide Moves, Link, Inv, PivotRuns.Run;
    var candles := CandlesOf(ins[..k + 1]);
    RunLinks(u, ins, ss, k);
    RunPivotsAre(u, ins, ss, k + 1);
    PivotTheorems.LowsAreIncreasing(Highs(candles), Lows(candles));
    LinkLogsEntry(ss[k], ss[k + 1], candles, u.risk, u.lev, ins[k].ml);
  }

  lemma {:induction false} RunPivotsAre(u: Setup, ins: seq<Input>, ss: seq<State>, n: nat)
    requires IsRun(u, ins, ss) && n <= |ins|
    ensures ss[n].pivots == PivotRuns.Run(Highs(CandlesOf(ins[..n])), Lows(CandlesOf(ins[..n])))
  {
    hide Moves, PivotRuns.Run;
    RunKeepsInv(u, ins, ss, n);
  }

  /** A position entered with the empty record is never closed again. */
  lemma {:induction false} EmptyRecordStays(u: Setup, ins: seq<Input>, ss: seq<State>, k: nat, n: nat)
    requires IsRun(u, ins, ss) && k < n <= |ins| && Open(ss[k + 1])
    requires |ss[k + 1].trades| > 0
    requires LastTrade(ss[k + 1].trades) == NoEntry.(actualEntryIndex := k, multiTPs := Some([]))
    ensures Open(ss[n]) && ss[n].trades == ss[k + 1].trades
    ensures ss[n].account.posLongSize == ss[k + 1].account.posLongSize
  {
    if n == k + 1 {
    } else {
      EmptyRecordStays(u, ins, ss, k, n - 1);
      OpenCandle(u, ins, ss, n - 1);
    }
  }

  // ---------- breaking a trade ----------

  /** Where the position open before candle n was entered. */
  lemma {:induction false} EntryOf(u: Setup, ins: seq<Input>, ss: seq<State>, n: nat) returns (k: nat)
    requires IsRun(u, ins, ss) && n <= |ins| && Open(ss[n])
    ensures k < n && !Open(ss[k]) && OpenThrough(ss, k + 1, n)
  {
    hide Moves;
    if Open(ss[n - 1]) {
      k := EntryOf(u, ins, ss, n - 1);
    } else {
      k := n - 1;
    }
  }

  /** What breakTrend reads when a run breaks a trade is in range, and what it divides by positive. */
  lemma {:induction false} BreakIsSafe(u: Setup, ins: seq<Input>, ss: seq<State>, i: nat)
    requires IsRun(u, ins, ss) && i < |ins| && Open(ss[i]) && !Open(ss[i + 1])
    ensures |ss[i].trades| > 0 && BreakSafe(LastTrade(ss[i].trades), i, CandlesOf(ins[..i + 1]))
  {
    hide Moves, Outcomes;
    var k := EntryOf(u, ins, ss, i);
    EntryOnRuns(u, ins, ss, k);
    RecordStays(u, ins, ss, k + 1, i);
    OpenCandle(u, ins, ss, i);
    if !Confirmed(CandlesOf(ins[..k + 1]), ss[k].trades, ss[k + 1].pivots.pl[|ss[k + 1].pivots.pl| - 1]) {
      EmptyRecordStays(u, ins, ss, k, i + 1);
    }
  }

  // ---------- closing without a deadline ----------

  ghost predicate SamePrices(ps: seq<MultiTPPoint>, qs: seq<MultiTPPoint>) {
    |ps| == |qs| && forall i :: 0 <= i < |ps| ==> ps[i].price == qs[i].price
  }

  lemma {:induction false} PointPricesStay(u: Setup, ins: seq<Input>, ss: seq<State>, a: nat, b: nat)
    requires IsRun(u, ins, ss) && a <= b <= |ins| && OpenThrough(ss, a, b)
    ensures |ss[a].trades| > 0 && |ss[b].trades| > 0
    ensures SamePrices(PointsIn(LastTrade(ss[a].trades)), PointsIn(LastTrade(ss[b].trades)))
  {
    hide Moves, OpenEntry;
    PositionIsCovered(u, ins, ss, a);
    if a == b {
    } else {
      PointPricesStay(u, ins, ss, a, b - 1);
      OpenCandle(u, ins, ss, b - 1);
    }
  }

  /** What ends a trade without a deadline: its stop, or the price of its last point. */
  predicate EndedBy(e: DataPoint, c: Candle) {
    Stopped(e, c) || (|PointsIn(e)| > 0 && PointsIn(e)[|PointsIn(e)| - 1].price <= c.high)
  }

  lemma {:induction false} CandleEndsIff(s: State, s': State, rel: nat, c: Candle)
    requires |s.trades| > 0 && Outcomes(s, s', rel, c) && Open(s) && LastTrade(s.trades).maxExitIndex == 0
    ensures s'.account.posLongSize == 0.0 <==> EndedBy(LastTrade(s.trades), c)
  {
    var e := LastTrade(s.trades);
    if !ClosesAll(e, rel, c) && PointsIn(e) != [] {
      var ps := PointsIn(e);
      var d: nat, f: nat :| Fires(s, s', rel, c.high, ps, d, f);
      assert f == |ps| <==> ps[|ps| - 1].price <= c.high;
    }
  }

  lemma {:induction false} SameEnd(e: DataPoint, e': DataPoint, c: Candle)
    requires e' == e.(multiTPs := e'.multiTPs) && SamePrices(PointsIn(e), PointsIn(e'))
    ensures EndedBy(e, c) <==> EndedBy(e', c)
  {
  }

  ghost predicate EndsBefore(e: DataPoint, ins: seq<Input>, k: nat, n: nat)
    requires n <= |ins|
  {
    exists j :: k < j < n && EndedBy(e, ins[j].candle)
  }

  /** A position whose record has no deadline is still open exactly if no candle since the entry reached
      its stop or its last point. */
  lemma {:induction false} OpenIffNotEnded(u: Setup, ins: seq<Input>, ss: seq<State>, k: nat, n: nat)
    requires IsRun(u, ins, ss) && k < n <= |ins| && Open(ss[k + 1])
    requires |ss[k + 1].trades| > 0 && LastTrade(ss[k + 1].trades).maxExitIndex == 0
    ensures OpenThrough(ss, k + 1, n) <==> !EndsBefore(LastTrade(ss[k + 1].trades), ins, k, n)
  {
    hide Moves, EndedBy, Outcomes, SamePrices;
    var e, j := LastTrade(ss[k + 1].trades), n - 1;
    if n == k + 1 {
    } else {
      OpenIffNotEnded(u, ins, ss, k, j);
      assert EndsBefore(e, ins, k, n) <==> EndsBefore(e, ins, k, j) || EndedBy(e, ins[j].candle);
      if OpenThrough(ss, k + 1, j) {
        RecordStays(u, ins, ss, k + 1, j);
        PointPricesStay(u, ins, ss, k + 1, j);
        OpenCandle(u, ins, ss, j);
        CandleEndsIff(ss[j], ss[n], j, ins[j].candle);
        SameEnd(e, LastTrade(ss[j].trades), ins[j].candle);
        PositionIsCovered(u, ins, ss, n);
      }
    }
  }

  /** Whether a position is ever closed. Its pivot unconfirmed: never. Confirmed and with a deadline: by
      candle max(k + 1, k + maximum duration) at the latest. Confirmed but with a deadline index of zero,
      which a negative duration can give: exactly when a later candle reaches the stop or the last point. */
  lemma {:induction false} ClosedIffConfirmed(u: Setup, ins: seq<Input>, ss: seq<State>, k: nat, last: nat)
    requires IsRun(u, ins, ss) && k < |ins| && !Open(ss[k]) && Open(ss[k + 1])
    requires last < |ins| && last == k + PivotSpec.Max(1, Positive(ss[k + 1].schedule.params.maxDurationCandles))
    ensures |ss[k + 1].pivots.pl| > 0 && ss[k + 1].pivots.pl[|ss[k + 1].pivots.pl| - 1] < k && |ss[k + 1].trades| > 0
    ensures var confirmed := Confirmed(CandlesOf(ins[..k + 1]), ss[k].trades,
                                       ss[k + 1].pivots.pl[|ss[k + 1].pivots.pl| - 1]);
            var e := LastTrade(ss[k + 1].trades);
            && (!confirmed ==> OpenThrough(ss, k + 1, |ins|))
            && (confirmed && e.maxExitIndex != 0 ==> !OpenThrough(ss, k + 1, last + 1))
            && (confirmed && e.maxExitIndex == 0 ==>
                  && ss[k + 1].schedule.params.maxDurationCandles < 0
                  && (OpenThrough(ss, k + 1, |ins|) <==> !EndsBefore(e, ins, k, |ins|)))
  {
    hide Moves, EndedBy, Confirmed;
    EntryOnRuns(u, ins, ss, k);
    var e := LastTrade(ss[k + 1].trades);
    if !Confirmed(CandlesOf(ins[..k + 1]), ss[k].trades, ss[k + 1].pivots.pl[|ss[k + 1].pivots.pl| - 1]) {
      forall c | k + 1 <= c <= |ins| ensures Open(ss[c]) {
        EmptyRecordStays(u, ins, ss, k, c);
      }
    } else if e.maxExitIndex != 0 {
      ExitInTime(u, ins, ss, k, last);
    } else {
      OpenIffNotEnded(u, ins, ss, k, |ins|);
    }
  }

  function Positive(n: int): nat {
    if n < 0 then 0 else n
  }
}
