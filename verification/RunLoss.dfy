/** The loss bound over runs of strat1: every closed trade is a deal of LossBound, and as long as no
    exit lies below its stop the equity never falls faster than the bound allows. */
module RunLoss {
  import opened Records
  import opened Executor
  import opened TrendBreak
  import opened Strategy
  import opened Ladder
  import opened OpenTrade
  import opened StrategyRuns
  import opened TradeTheorems
  import opened LossArithmetic
  import opened LossBound

  // ---------- the exits of one candle ----------

  function FillsOf(points: seq<MultiTPPoint>, rel: nat): (fills: seq<Fill>)
    ensures |fills| == |points|
    ensures forall i :: 0 <= i < |points| ==> fills[i] == Fill(points[i].price, points[i].closeSize, MultiTP, rel)
  {
    seq(|points|, i requires 0 <= i < |points| => Fill(points[i].price, points[i].closeSize, MultiTP, rel))
  }

  /** What candle rel sells of a position: all of it at the deadline's close or at the stop, or the
      take-profit points it reaches. */
  function FillsAt(e: DataPoint, pos: real, c: Candle, rel: nat): seq<Fill> {
    if Expired(e, rel) then [Fill(c.close, pos, Max, rel)]
    else if Stopped(e, c) then [Fill(e.slPrice, pos, SL, rel)]
    else FillsOf(Fired(PointsIn(e), c.high), rel)
  }

  /** Nothing candle rel sells is priced below the stop of the record. */
  predicate NoExitBelow(e: DataPoint, c: Candle, rel: nat) {
    if Expired(e, rel) then c.close >= e.slPrice
    else !Stopped(e, c) ==> forall p :: p in Fired(PointsIn(e), c.high) ==> p.price >= e.slPrice
  }

  lemma {:induction false} FillsAboveIff(e: DataPoint, pos: real, c: Candle, rel: nat)
    ensures AtOrAbove(FillsAt(e, pos, c, rel), e.slPrice) <==> NoExitBelow(e, c, rel)
  {
    var points := Fired(PointsIn(e), c.high);
    var fills := FillsAt(e, pos, c, rel);
    if !Expired(e, rel) && !Stopped(e, c) {
      if AtOrAbove(fills, e.slPrice) {
        forall p | p in points ensures p.price >= e.slPrice {
          var i :| 0 <= i < |points| && points[i] == p;
          assert fills[i].price >= e.slPrice;
        }
      }
      assert forall i :: 0 <= i < |points| ==> points[i] in points && fills[i].price == points[i].price;
    } else {
      assert |fills| == 1 && fills[0].price == if Expired(e, rel) then c.close else e.slPrice;
    }
  }

  lemma {:induction false} SettledJoins(x: Account, a: seq<Fill>, b: seq<Fill>)
    ensures Settled(x, a + b) == Settled(Settled(x, a), b)
  {
    if |b| == 0 {
      assert a + b == a;
    } else {
      assert (a + b)[..|a + b| - 1] == a + b[..|b| - 1];
      SettledJoins(x, a, b[..|b| - 1]);
    }
  }

  /** Closing everything by percentage is closing it by size. */
  lemma {:induction false} WholeIsFill(x: Account, price: real, rel: nat, kind: Kind)
    requires x.posLongSize > 0.0
    ensures Settled(x, [Fill(price, x.posLongSize, kind, rel)]) == ClosedLong(x, price, 100.0, -1.0, rel, kind)
  {
    var f := Fill(price, x.posLongSize, kind, rel);
    OneFill(x, f);
    assert OrderSize(x, 100.0, -1.0) == x.posLongSize == OrderSize(x, -1.0, f.size);
  }

  lemma {:induction false} FiredAreFills(b: Book, points: seq<MultiTPPoint>, rel: nat)
    ensures FireAll(b, points, rel).account == Settled(b.account, FillsOf(points, rel))
  {
    if |points| == 0 {
    } else {
      FiredAreFills(b, points[..|points| - 1], rel);
      assert FillsOf(points, rel)[..|points| - 1] == FillsOf(points[..|points| - 1], rel);
    }
  }

  lemma {:induction false} LadderSettles(trades: seq<DataPoint>, x: Account, candles: seq<Candle>,
                                         ps: seq<MultiTPPoint>, d: nat, f: nat)
    requires |candles| > 1 && |trades| > 0 && OpenEntry(LastTrade(trades), x.posLongSize)
    requires LastTrade(trades).multiTPs == Some(ps) && Covers(ps, d, x.posLongSize)
    requires !ClosesAll(LastTrade(trades), |candles| - 1, candles[|candles| - 1])
    requires Reaches(ps, d, f, candles[|candles| - 1].high)
    ensures var rel := |candles| - 1;
            var fills := FillsOf(Fired(ps, candles[rel].high), rel);
            Managed(trades, x, candles).1 == Settled(x, fills) && Sized(fills)
  {
    hide OpenEntry, Managed, FireAll, Settled, Fired;
    var rel, e := |candles| - 1, LastTrade(trades);
    CandleFires(ps, d, f, candles[rel].high);
    ManagedFires(trades, x, candles, ps, d, f);
    FiredAreFills(Book(trades, e.(multiTPs := Some(DoneUpTo(ps, f))), x), DoneRange(ps, d, f), rel);
    forall i | 0 <= i < f - d ensures DoneRange(ps, d, f)[i].closeSize > 0.0 {
      assert Rung(ps, d, d + i);
    }
  }

  /** The account after a candle of an open trade is the one before it after these exits. */
  lemma {:induction false} ManagedSettles(trades: seq<DataPoint>, x: Account, candles: seq<Candle>)
    requires |candles| > 1 && candles[|candles| - 1].close > 0.0 && x.posLongSize > 0.0
    requires |trades| > 0 && OpenEntry(LastTrade(trades), x.posLongSize)
    ensures var rel := |candles| - 1;
            var fills := FillsAt(LastTrade(trades), x.posLongSize, candles[rel], rel);
            Managed(trades, x, candles).1 == Settled(x, fills) && Sized(fills)
  {
    hide Managed, ClosedLong, Covers;
    var rel, e := |candles| - 1, LastTrade(trades);
    if ClosesAll(e, rel, candles[rel]) {
      ManagedCloses(trades, x, candles);
      WholeIsFill(x, if Expired(e, rel) then candles[rel].close else e.slPrice, rel,
                  if Expired(e, rel) then Max else SL);
    } else if e.multiTPs.value == [] {
      ManagedWaits(trades, x, candles);
      assert FillsAt(e, x.posLongSize, candles[rel], rel) == [];
    } else {
      var ps := e.multiTPs.value;
      var d: nat :| Covers(ps, d, x.posLongSize);
      CoversRungs(ps, d, x.posLongSize);
      var f := ReachExists(ps, d, candles[rel].high);
      LadderSettles(trades, x, candles, ps, d, f);
    }
  }

  lemma {:induction false} CoversRungs(ps: seq<MultiTPPoint>, d: nat, pos: real)
    requires Covers(ps, d, pos)
    ensures Rungs(ps, d)
  {
  }

  lemma {:induction false} LinkSettles(s: State, s': State, candles: seq<Candle>, risk: real, lev: int, ml: Params,
                                       rel: nat, c: Candle)
    requires Link(s, s', candles, risk, lev, ml) && Open(s) && rel + 1 == |candles| && c == candles[rel]
    ensures |s.trades| > 0
    ensures var fills := FillsAt(LastTrade(s.trades), s.account.posLongSize, c, rel);
            s'.account == Settled(WithRates(s.account), fills) && Sized(fills)
  {
    var x := WithRates(s.account);
    OpenIsManaged(s.trades, x, s'.pivots.pl, candles, risk, lev, s'.schedule.params);
    ManagedSettles(s.trades, x, candles);
  }

  // ---------- a whole trade ----------

  /** The exits of candles a .. b - 1. */
  function TradeFills(ins: seq<Input>, ss: seq<State>, a: nat, b: nat): seq<Fill>
    requires b <= |ins| < |ss| && forall i :: a <= i < b ==> |ss[i].trades| > 0
  {
    if b <= a then [] else
    TradeFills(ins, ss, a, b - 1)
    + FillsAt(LastTrade(ss[b - 1].trades), ss[b - 1].account.posLongSize, ins[b - 1].candle, b - 1)
  }

  lemma {:induction false} RecordsThere(u: Setup, ins: seq<Input>, ss: seq<State>, a: nat, b: nat)
    requires IsRun(u, ins, ss) && a <= b <= |ins| && forall i :: a <= i < b ==> Open(ss[i])
    ensures forall i :: a <= i < b ==> |ss[i].trades| > 0
  {
    hide Moves, OpenEntry;
    forall i | a <= i < b ensures |ss[i].trades| > 0 {
      PositionIsCovered(u, ins, ss, i);
    }
  }

  ghost predicate AtRates(x: Account) {
    x == WithRates(x)
  }

  lemma {:induction false} SettledRates(x: Account, fills: seq<Fill>)
    ensures Rated(Settled(x, fills), x.exchangeTradeFeePerc, x.orderSlippagePerc)
  {
    if |fills| == 0 {
    } else {
      SettledRates(x, fills[..|fills| - 1]);
    }
  }

  lemma {:induction false} SizedJoins(a: seq<Fill>, b: seq<Fill>)
    requires Sized(a) && Sized(b)
    ensures Sized(a + b)
  {
  }

  lemma {:induction false} SettlesNext(x: Account, y: Account, before: seq<Fill>, fills: seq<Fill>)
    requires y == Settled(x, before) && AtRates(y) && Sized(before) && Sized(fills)
    ensures Settled(WithRates(y), fills) == Settled(x, before + fills) && Sized(before + fills)
    ensures AtRates(Settled(WithRates(y), fills))
  {
    SettledJoins(x, before, fills);
    SizedJoins(before, fills);
    SettledRates(y, fills);
  }

  lemma {:induction false} TradeFillsNext(ins: seq<Input>, ss: seq<State>, a: nat, j: nat)
    requires a <= j < |ins| < |ss| && forall i :: a <= i < j + 1 ==> |ss[i].trades| > 0
    ensures TradeFills(ins, ss, a, j + 1)
         == TradeFills(ins, ss, a, j) + FillsAt(LastTrade(ss[j].trades), ss[j].account.posLongSize, ins[j].candle, j)
  {
  }

  lemma {:induction false} NothingSold(ins: seq<Input>, ss: seq<State>, a: nat, x: Account)
    requires a <= |ins| < |ss|
    ensures TradeFills(ins, ss, a, a) == [] && Sized([]) && Settled(x, []) == x
  {
  }

  /** While a position is open the account is what the exits so far have left of it. */
  lemma {:induction false} OpenIsSettled(u: Setup, ins: seq<Input>, ss: seq<State>, a: nat, b: nat)
    requires IsRun(u, ins, ss) && a <= b <= |ins| && (forall i :: a <= i < b ==> Open(ss[i])) && AtRates(ss[a].account)
    ensures forall i :: a <= i < b ==> |ss[i].trades| > 0
    ensures ss[b].account == Settled(ss[a].account, TradeFills(ins, ss, a, b)) && Sized(TradeFills(ins, ss, a, b))
    ensures AtRates(ss[b].account)
  {
    hide Moves, Link, Inv, FillsAt, Sized, TradeFills, Settled, AtRates, GoodInputs, GoodStart;
    RecordsThere(u, ins, ss, a, b);
    if a == b {
      NothingSold(ins, ss, a, ss[a].account);
    } else {
      var j := b - 1;
      OpenIsSettled(u, ins, ss, a, j);
      RunLinks(u, ins, ss, j);
      LinkSettles(ss[j], ss[j + 1], CandlesOf(ins[..j + 1]), u.risk, u.lev, ins[j].ml, j, ins[j].candle);
      var fills := FillsAt(LastTrade(ss[j].trades), ss[j].account.posLongSize, ins[j].candle, j);
      TradeFillsNext(ins, ss, a, j);
      SettlesNext(ss[a].account, ss[j].account, TradeFills(ins, ss, a, j), fills);
    }
  }

  /** Position entered on candle k and open through candle b. */
  ghost predicate TradeOpen(ss: seq<State>, k: nat, b: nat)
    requires b < |ss|
  {
    k < b && !Open(ss[k]) && forall i :: k < i <= b ==> Open(ss[i])
  }

  lemma {:induction false} LinkBuysDeal(s: State, s': State, candles: seq<Candle>, risk: real, lev: int, ml: Params,
                                        k: nat)
    returns (points: seq<MultiTPPoint>)
    requires Link(s, s', candles, risk, lev, ml) && !Open(s) && Open(s') && k + 1 == |candles|
    ensures |s'.trades| > 0 && candles[k].close > 0.0 && EntryPrice(WithRates(s.account), candles[k].close) != 0.0
    ensures var x, sl := WithRates(s.account), LastTrade(s'.trades).slPrice;
            && s'.account == Bought(x, candles[k].close, sl, risk, lev, k, points, true).0
            && !TooSmall(CalcEntry(candles[k].close, sl, risk, x.availableEquity, lev).0)
            && x.posLongSize == 0.0
    ensures AtRates(s'.account)
  {
    var x := WithRates(s.account);
    var p := LinkEnters(s, s', candles, risk, lev, ml);
    points := PointsIn(EntryRecord(s.trades, p, candles, s'.schedule.params));
  }

  /** Every trade a run has closed is a deal: what Buy was called with, and the exits of its candles. */
  lemma {:induction false} ClosedTradeIsDeal(u: Setup, ins: seq<Input>, ss: seq<State>, k: nat, c: nat)
    returns (d: Deal)
    requires IsRun(u, ins, ss) && k < c < |ins| && TradeOpen(ss, k, c) && !Open(ss[c + 1])
    ensures |ss[k + 1].trades| > 0 && forall i :: k + 1 <= i < c + 1 ==> |ss[i].trades| > 0
    ensures d.price == ins[k].candle.close > 0.0 && d.entryCandle == k && d.sl == LastTrade(ss[k + 1].trades).slPrice
    ensures d.fills == TradeFills(ins, ss, k + 1, c + 1) && Sized(d.fills)
    ensures var x := WithRates(ss[k].account);
            && x.posLongSize == 0.0 && EntryPrice(x, d.price) != 0.0
            && !TooSmall(CalcEntry(d.price, d.sl, u.risk, x.availableEquity, u.lev).0)
            && ss[c + 1].account == Played(x, d, u.risk, u.lev)
    ensures ss[c + 1].account.posLongSize == 0.0
  {
    hide Moves, Link, Inv, TradeFills, Settled, Bought, CalcEntry;
    RunLinks(u, ins, ss, k);
    var candles := CandlesOf(ins[..k + 1]);
    var points := LinkBuysDeal(ss[k], ss[k + 1], candles, u.risk, u.lev, ins[k].ml, k);
    OpenIsSettled(u, ins, ss, k + 1, c + 1);
    d := Deal(ins[k].candle.close, LastTrade(ss[k + 1].trades).slPrice, points, k, TradeFills(ins, ss, k + 1, c + 1));
    PositionIsCovered(u, ins, ss, c + 1);
  }

  /** Candles a .. b - 1 sell nothing below the stop. */
  ghost predicate NoneBelow(ins: seq<Input>, ss: seq<State>, a: nat, b: nat)
    requires b <= |ins| < |ss|
  {
    forall i :: a <= i < b && Open(ss[i]) ==> SellsNoLower(ins, ss, i)
  }

  ghost predicate SellsNoLower(ins: seq<Input>, ss: seq<State>, i: nat)
    requires i < |ins| < |ss|
  {
    |ss[i].trades| > 0 ==> NoExitBelow(LastTrade(ss[i].trades), ins[i].candle, i)
  }

  /** All exits of a trade are at or above its stop exactly when no deadline close and no price of a
      fired point on its candles is below it. */
  lemma {:induction false} ExitsAboveIff(u: Setup, ins: seq<Input>, ss: seq<State>, k: nat, b: nat, sl: real)
    requires IsRun(u, ins, ss) && k < b <= |ins|
    requires forall i :: k < i < b ==> Open(ss[i]) && |ss[i].trades| > 0
    requires forall i :: k < i < b ==> LastTrade(ss[i].trades).slPrice == sl
    ensures AtOrAbove(TradeFills(ins, ss, k + 1, b), sl) <==> NoneBelow(ins, ss, k + 1, b)
  {
    hide Moves, FillsAt, NoExitBelow;
    if k + 1 == b {
    } else {
      var j := b - 1;
      ExitsAboveIff(u, ins, ss, k, j, sl);
      var e, before := LastTrade(ss[j].trades), TradeFills(ins, ss, k + 1, j);
      var fills := FillsAt(e, ss[j].account.posLongSize, ins[j].candle, j);
      FillsAboveIff(e, ss[j].account.posLongSize, ins[j].candle, j);
      AboveJoins(before, fills, sl);
      NoneBelowNext(ins, ss, k + 1, j);
    }
  }

  lemma {:induction false} AboveJoins(a: seq<Fill>, b: seq<Fill>, sl: real)
    ensures AtOrAbove(a + b, sl) <==> AtOrAbove(a, sl) && AtOrAbove(b, sl)
  {
    if AtOrAbove(a + b, sl) {
      assert forall i :: 0 <= i < |a| ==> (a + b)[i] == a[i];
      assert forall i :: 0 <= i < |b| ==> (a + b)[|a| + i] == b[i];
    }
  }

  lemma {:induction false} NoneBelowNext(ins: seq<Input>, ss: seq<State>, a: nat, j: nat)
    requires a <= j < |ins| < |ss| && Open(ss[j]) && |ss[j].trades| > 0
    ensures NoneBelow(ins, ss, a, j + 1)
       <==> NoneBelow(ins, ss, a, j) && NoExitBelow(LastTrade(ss[j].trades), ins[j].candle, j)
  {
    hide NoExitBelow, Open;
    assert NoneBelow(ins, ss, a, j + 1) ==> SellsNoLower(ins, ss, j);
  }

  lemma {:induction false} SameStop(u: Setup, ins: seq<Input>, ss: seq<State>, k: nat, b: nat, i: nat)
    requires IsRun(u, ins, ss) && b <= |ins| && TradeOpen(ss, k, b) && k < i <= b
    ensures |ss[i].trades| > 0 && |ss[k + 1].trades| > 0
    ensures LastTrade(ss[i].trades).slPrice == LastTrade(ss[k + 1].trades).slPrice
  {
    hide Moves;
    RecordStays(u, ins, ss, k + 1, i);
  }

  /** A closed trade of a run loses at most MaxLoss of the equity it started with, if none of its candles
      sells below the stop. */
  lemma {:induction false} ClosedTradeLoss(u: Setup, ins: seq<Input>, ss: seq<State>, k: nat, c: nat)
    requires IsRun(u, ins, ss) && k < c < |ins| && TradeOpen(ss, k, c) && !Open(ss[c + 1])
    requires Sane(EXCHANGE_TRADE_FEE_PERC, ORDER_SLIPPAGE_PERC, u.risk, u.lev) && ss[k].account.availableEquity > 0.0
    requires NoneBelow(ins, ss, k + 1, c + 1)
    ensures var e := ss[k].account.availableEquity;
            e - ss[c + 1].account.availableEquity
                <= e * MaxLoss(EXCHANGE_TRADE_FEE_PERC, ORDER_SLIPPAGE_PERC, u.risk, u.lev)
  {
    hide Moves, TradeFills, Settled, Bought, CalcEntry, NoneBelow, MaxLoss;
    var d := ClosedTradeIsDeal(u, ins, ss, k, c);
    forall i | k < i < c + 1 ensures LastTrade(ss[i].trades).slPrice == d.sl {
      SameStop(u, ins, ss, k, c, i);
    }
    ExitsAboveIff(u, ins, ss, k, c + 1, d.sl);
    TradeLossBounded(WithRates(ss[k].account), d, EXCHANGE_TRADE_FEE_PERC, ORDER_SLIPPAGE_PERC, u.risk, u.lev);
  }

  // ---------- a whole run ----------

  /** How many positions were entered on the first n candles. */
  ghost function Entries(ss: seq<State>, n: nat): nat
    requires n < |ss|
  {
    if n == 0 then 0 else Entries(ss, n - 1) + if !Open(ss[n - 1]) && Open(ss[n]) then 1 else 0
  }

  /** A flat candle that enters nothing leaves the equity as it is. */
  lemma {:induction false} LinkIdles(s: State, s': State, candles: seq<Candle>, risk: real, lev: int, ml: Params)
    requires Link(s, s', candles, risk, lev, ml) && !Open(s) && !Open(s')
    ensures s'.account == WithRates(s.account)
  {
    var x := WithRates(s.account);
    var latest := LatestActions(x.actions, |candles| - 2);
    if !CoolingDown(s.trades, latest, s'.schedule.params.slCooldownCandles, |candles| - 1) && |s'.pivots.pl| >= 4 {
      var pivot := EntryPivot(s.trades, latest, s'.pivots.pl, candles, s'.schedule.params);
      if pivot.Some? {
        IdleEntry(s.trades, x, pivot.value, candles, risk, lev, s'.schedule.params);
      }
    }
  }

  lemma {:induction false} IdleEntry(trades: seq<DataPoint>, x: Account, entry: nat, candles: seq<Candle>, risk: real,
                                     lev: int, params: Params)
    requires entry < |candles| && Buyable(x, candles) && candles[|candles| - 1].close > 0.0 && AtRates(x)
    requires Entered(trades, x, entry, candles, risk, lev, params).1.posLongSize <= 0.0
    ensures Entered(trades, x, entry, candles, risk, lev, params).1 == x
  {
    var close, sl := candles[|candles| - 1].close, EntryRecord(trades, entry, candles, params).slPrice;
    var cap := CalcEntry(close, sl, risk, x.availableEquity, lev).0;
    if !TooSmall(cap) {
      SizePositive(cap, close);
    }
  }

  lemma {:induction false} EntriesWhileOpen(ss: seq<State>, k: nat, n: nat)
    requires k < n < |ss| && !Open(ss[k]) && OpenThrough(ss, k + 1, n)
    ensures Entries(ss, n) == Entries(ss, k) + 1
  {
    if k + 1 == n {
    } else {
      EntriesWhileOpen(ss, k, n - 1);
    }
  }

  lemma {:induction false} KeptByTrade(u: Setup, ins: seq<Input>, ss: seq<State>, k: nat, c: nat, q: real)
    requires IsRun(u, ins, ss) && k < c < |ins| && TradeOpen(ss, k, c) && !Open(ss[c + 1])
    requires Sane(EXCHANGE_TRADE_FEE_PERC, ORDER_SLIPPAGE_PERC, u.risk, u.lev) && ss[k].account.availableEquity > 0.0
    requires q == MaxLoss(EXCHANGE_TRADE_FEE_PERC, ORDER_SLIPPAGE_PERC, u.risk, u.lev) && 0.0 <= q < 1.0
    requires NoneBelow(ins, ss, k + 1, c + 1)
    ensures ss[c + 1].account.availableEquity >= ss[k].account.availableEquity * (1.0 - q)
    ensures ss[c + 1].account.availableEquity > 0.0
  {
    hide Moves, MaxLoss, NoneBelow, Sane, TradeOpen;
    ClosedTradeLoss(u, ins, ss, k, c);
    KeepsShare(ss[k].account.availableEquity, ss[c + 1].account.availableEquity, q);
  }

  ghost predicate KeptShare(ss: seq<State>, n: nat, equity: real, q: real)
    requires n < |ss|
  {
    ss[n].account.availableEquity > 0.0 && ss[n].account.availableEquity >= equity * Power(1.0 - q, Entries(ss, n))
  }

  lemma {:induction false} KeptNext(ss: seq<State>, k: nat, n: nat, equity: real, q: real)
    requires k < n < |ss| && KeptShare(ss, k, equity, q) && Entries(ss, n) == Entries(ss, k) + 1 && q < 1.0
    requires ss[n].account.availableEquity > 0.0
    requires ss[n].account.availableEquity >= ss[k].account.availableEquity * (1.0 - q)
    ensures KeptShare(ss, n, equity, q)
  {
    hide Entries;
    Compound(equity, ss[k].account.availableEquity, ss[n].account.availableEquity, 1.0 - q, Entries(ss, k));
  }

  lemma {:induction false} KeptIdle(ss: seq<State>, n: nat, equity: real, q: real)
    requires n + 1 < |ss| && KeptShare(ss, n, equity, q) && !Open(ss[n + 1])
    requires ss[n + 1].account.availableEquity == ss[n].account.availableEquity
    ensures KeptShare(ss, n + 1, equity, q)
  {
    hide Power;
  }

  lemma {:induction false} FlatKeepsShare(u: Setup, ins: seq<Input>, ss: seq<State>, n: nat, q: real)
    requires IsRun(u, ins, ss) && n <= |ins| && !Open(ss[n]) && NoneBelow(ins, ss, 0, n) && u.equity > 0.0
    requires Sane(EXCHANGE_TRADE_FEE_PERC, ORDER_SLIPPAGE_PERC, u.risk, u.lev)
    requires q == MaxLoss(EXCHANGE_TRADE_FEE_PERC, ORDER_SLIPPAGE_PERC, u.risk, u.lev) && 0.0 <= q < 1.0
    ensures KeptShare(ss, n, u.equity, q)
  {
    hide Moves, Link, MaxLoss, Inv, KeptShare, Sane;
    if n == 0 {
      FlatIsAvailable(u, ins, ss, 0);
      KeptAtStart(ss, u.equity, q);
    } else {
      var i := n - 1;
      if Open(ss[i]) {
        var k := EntryOf(u, ins, ss, i);
        EntriesWhileOpen(ss, k, i);
        assert NoneBelow(ins, ss, 0, k) && NoneBelow(ins, ss, k + 1, n);
        FlatKeepsShare(u, ins, ss, k, q);
        assert ss[k].account.availableEquity > 0.0 by { KeptPositive(ss, k, u.equity, q); }
        KeptByTrade(u, ins, ss, k, i, q);
        KeptNext(ss, k, n, u.equity, q);
      } else {
        assert NoneBelow(ins, ss, 0, i);
        FlatKeepsShare(u, ins, ss, i, q);
        RunLinks(u, ins, ss, i);
        LinkIdles(ss[i], ss[n], CandlesOf(ins[..i + 1]), u.risk, u.lev, ins[i].ml);
        KeptIdle(ss, i, u.equity, q);
      }
    }
  }

  lemma {:induction false} KeptAtStart(ss: seq<State>, equity: real, q: real)
    requires |ss| > 0 && ss[0].account.availableEquity == equity > 0.0
    ensures KeptShare(ss, 0, equity, q)
  {
  }

  lemma {:induction false} KeptPositive(ss: seq<State>, n: nat, equity: real, q: real)
    requires n < |ss| && KeptShare(ss, n, equity, q)
    ensures ss[n].account.availableEquity > 0.0
  {
  }

  /** In every run that has sold nothing below a stop, the equity of a flat account after so many
      entries is at least initial * (1 - q)^entries. */
  lemma {:induction false} RunLossBounded(u: Setup, ins: seq<Input>, ss: seq<State>, n: nat, q: real)
    requires IsRun(u, ins, ss) && n <= |ins| && !Open(ss[n]) && NoneBelow(ins, ss, 0, n) && u.equity > 0.0
    requires Sane(EXCHANGE_TRADE_FEE_PERC, ORDER_SLIPPAGE_PERC, u.risk, u.lev)
    requires q == MaxLoss(EXCHANGE_TRADE_FEE_PERC, ORDER_SLIPPAGE_PERC, u.risk, u.lev) && 0.0 <= q < 1.0
    ensures ss[n].account.totalEquity == ss[n].account.availableEquity > 0.0
    ensures ss[n].account.totalEquity >= u.equity * Power(1.0 - q, Entries(ss, n))
  {
    hide Moves, MaxLoss, NoneBelow, Sane, Power, Entries;
    FlatIsAvailable(u, ins, ss, n);
    FlatKeepsShare(u, ins, ss, n, q);
  }

  lemma {:induction false} FlatIsAvailable(u: Setup, ins: seq<Input>, ss: seq<State>, n: nat)
    requires IsRun(u, ins, ss) && n <= |ins| && !Open(ss[n])
    ensures ss[n].account.totalEquity == ss[n].account.availableEquity
    ensures n == 0 ==> ss[n].account.availableEquity == u.equity
  {
    hide Moves;
    RunKeepsInv(u, ins, ss, n);
  }
}
