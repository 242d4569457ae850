/** The beginning of a run of strat1: nothing happens before enough pivot lows have been found. */
module FirstEntry {
  import opened Records
  import opened EntryWatch
  import opened Strategy
  import opened StrategyRuns
  import PivotTheorems

  /** No record, no action, and the initial equity in cash. */
  ghost predicate Untouched(u: Setup, s: State) {
    && s.trades == [] && s.account.actions == map[]
    && s.account.posLongSize == 0.0 && s.account.availableEquity == u.equity
  }

  lemma {:induction false} LinkWaits(u: Setup, s: State, s': State, candles: seq<Candle>, ml: Params)
    requires Link(s, s', candles, u.risk, u.lev, ml) && Untouched(u, s)
    requires |s'.pivots.pl| < 4 || |s'.pivots.pl| < s'.schedule.params.pivotLowsToEnter
    ensures Untouched(u, s')
  {
  }

  /** Fewer than four pivot lows, or fewer than are asked for. */
  ghost predicate FewLows(ss: seq<State>, n: nat)
    requires n < |ss|
  {
    |ss[n].pivots.pl| < 4 || |ss[n].pivots.pl| < ss[n].schedule.params.pivotLowsToEnter
  }

  /** Nothing is traded before the fourth pivot low, nor before as many as are asked for. */
  lemma {:induction false} WaitsForLows(u: Setup, ins: seq<Input>, ss: seq<State>, n: nat)
    requires IsRun(u, ins, ss) && n <= |ins|
    requires forall m :: 0 < m <= n ==> FewLows(ss, m)
    ensures Untouched(u, ss[n])
  {
    hide Moves, Link, Inv;
    if n == 0 {
    } else {
      var i := n - 1;
      WaitsForLows(u, ins, ss, i);
      RunLinks(u, ins, ss, i);
      assert FewLows(ss, n);
      LinkWaits(u, ss[i], ss[i + 1], CandlesOf(ins[..i + 1]), ins[i].ml);
    }
  }

  /** If the latest of increasing pivot lows qualifies, it is the last one returned. */
  lemma {:induction false} LatestQualifies(low: seq<real>, pl: seq<nat>, count: int)
    requires Priced(low, pl) && Searchable(pl, count, 0) && 1 <= count <= |pl|
    requires PivotTheorems.Increasing(pl) && WatchExact(low, pl, count) && Descends(low, pl, count, |pl| - 1)
    ensures var w := Watch(low, pl, count, 0); |w| > 0 && w[|w| - 1] == pl[|pl| - 1]
  {
    hide Watch, Searchable, Descends;
    var w, last := Watch(low, pl, count, 0), pl[|pl| - 1];
    assert last in w;
    var k :| 0 <= k < |w| && w[k] == last;
    forall x | x in w ensures x <= last {
      assert x in pl[count - 1..];
    }
    assert w[|w| - 1] in w && w[k] <= w[|w| - 1];
  }

  lemma {:induction false} NoLatest(c: int)
    ensures LatestActions(map[], c) == []
  {
    if c < 1 {
    } else {
      NoLatest(c - 1);
    }
  }

  /** With four lows and nothing traded yet the call looks for an entry, so it asks for at least one low. */
  lemma {:induction false} LinkSearches(u: Setup, s: State, s': State, candles: seq<Candle>, ml: Params)
    requires Link(s, s', candles, u.risk, u.lev, ml) && Untouched(u, s) && |s'.pivots.pl| >= 4
    requires PivotTheorems.Increasing(s'.pivots.pl) && Priced(Lows(candles), s'.pivots.pl)
    ensures s'.schedule.params.pivotLowsToEnter >= 1
  {
    hide FirstListed, Trade, Watch;
    assert Searching(s.trades, WithRates(s.account), s'.pivots.pl, s'.schedule.params, |candles| - 1);
    FirstListedIff(Lows(candles), s'.pivots.pl, s'.schedule.params.pivotLowsToEnter);
  }

  /** The first pivot low that closes a long enough descending series is bought on. */
  lemma {:induction false} LinkEntersFirst(u: Setup, s: State, s': State, candles: seq<Candle>, ml: Params)
    requires Link(s, s', candles, u.risk, u.lev, ml) && Untouched(u, s) && |s'.pivots.pl| >= 4
    requires var params, pl, low := s'.schedule.params, s'.pivots.pl, Lows(candles);
             && params.pivotLowsToEnter <= |pl| && PivotTheorems.Increasing(pl) && Priced(low, pl)
             && Descends(low, pl, params.pivotLowsToEnter, |pl| - 1)
    ensures var x, entry := WithRates(s.account), s'.pivots.pl[|s'.pivots.pl| - 1];
            && entry < |candles| && Buyable(x, candles)
            && (s'.trades, s'.account) == Entered([], x, entry, candles, u.risk, u.lev, s'.schedule.params)
  {
    hide Entered, Descends, Searchable, Watch;
    var x, params, pl := WithRates(s.account), s'.schedule.params, s'.pivots.pl;
    LinkSearches(u, s, s', candles, ml);
    NoLatest(|candles| - 2);
    WatchIsExact(Lows(candles), pl, params.pivotLowsToEnter);
    LatestQualifies(Lows(candles), pl, params.pivotLowsToEnter);
    assert EntryPivot(s.trades, [], pl, candles, params) == Some(pl[|pl| - 1]);
  }
}
