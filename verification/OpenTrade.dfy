/** What one candle does to an open trade of strat1. */
module OpenTrade {
  import opened Records
  import opened Executor
  import opened ExecutorLaws
  import opened TradeLog
  import opened TrendBreak
  import opened Strategy
  import opened Ladder

  /** The record of an open trade: never broken, no single take profit and no trailing stop, and
      either no take-profit points or a ladder that covers the position. */
  ghost predicate OpenEntry(e: DataPoint, pos: real) {
    && e.breakIndex == 0 && e.startTrailPerc == 0.0 && e.tpPrice == 0.0
    && e.multiTPs.Some?
    && (e.multiTPs.value == [] || exists d: nat :: Covers(e.multiTPs.value, d, pos))
  }

  predicate Stopped(e: DataPoint, c: Candle) {
    c.low <= e.slPrice && e.slPrice > 0.0
  }

  function Whole(trades: seq<DataPoint>, x: Account, price: real, rel: int, kind: Kind): (seq<DataPoint>, Account)
    requires |trades| > 0
  {
    (trades + [Broken(LastTrade(trades), rel, kind)], ClosedLong(x, price, 100.0, -1.0, rel, kind))
  }

  /** The maximum duration and the stop close the whole position and record the broken trade. */
  lemma {:induction false} ManagedCloses(trades: seq<DataPoint>, x: Account, candles: seq<Candle>)
    requires |candles| > 1 && |trades| > 0 && OpenEntry(LastTrade(trades), x.posLongSize)
    requires candles[|candles| - 1].close > 0.0
    ensures var e, rel := LastTrade(trades), |candles| - 1;
            && (Expired(e, rel) ==> Managed(trades, x, candles) == Whole(trades, x, candles[rel].close, rel, Max))
            && (!Expired(e, rel) && Stopped(e, candles[rel]) ==>
                Managed(trades, x, candles) == Whole(trades, x, e.slPrice, rel, SL))
  {
    var e, rel := LastTrade(trades), |candles| - 1;
    AppendTwice(trades, Broken(e, rel, Max));
    AppendTwice(trades, Broken(e, rel, SL));
  }

  lemma {:induction false} AppendTwice(trades: seq<DataPoint>, e: DataPoint)
    ensures (trades + [e])[|trades + [e]| - 1 := e] == trades + [e]
  {
  }

  /** Without take-profit points nothing else can happen. */
  lemma {:induction false} ManagedWaits(trades: seq<DataPoint>, x: Account, candles: seq<Candle>)
    requires |candles| > 1 && |trades| > 0 && OpenEntry(LastTrade(trades), x.posLongSize)
    requires LastTrade(trades).multiTPs == Some([])
    requires !Expired(LastTrade(trades), |candles| - 1) && !Stopped(LastTrade(trades), candles[|candles| - 1])
    ensures Managed(trades, x, candles) == (trades, x)
  {
  }

  /** With a ladder a candle that neither expires nor stops the trade is a take-profit event. */
  lemma {:induction false} LadderEvent(e: DataPoint, pos: real, candles: seq<Candle>, ps: seq<MultiTPPoint>, d: nat,
                                       f: nat)
    requires |candles| > 1 && OpenEntry(e, pos) && e.multiTPs == Some(ps) && Covers(ps, d, pos)
    requires !Expired(e, |candles| - 1) && !Stopped(e, candles[|candles| - 1])
    requires Reaches(ps, d, f, candles[|candles| - 1].high)
    ensures var rel, e' := |candles| - 1, e.(multiTPs := Some(DoneUpTo(ps, f)));
            var o := Check(e, rel, rel, candles);
            && o.entry == e' && o.event.Some? && HasTPs(e')
            && o.event.value == Event(rel, o.event.value.price, MultiTP, DoneRange(ps, d, f), e')
            && (d < f ==> DoneRange(ps, d, f)[0].price > 0.0)
  {
    CandleFires(ps, d, f, candles[|candles| - 1].high);
    assert Rung(ps, d, 0) && DoneUpTo(ps, f)[0].price == ps[0].price;
    if d < f {
      assert Rung(ps, d, d) && DoneRange(ps, d, f)[0] == Done(ps[d]);
    }
  }

  /** With a ladder the reached points fire; the trade is broken exactly when none is left. */
  lemma {:induction false} ManagedFires(trades: seq<DataPoint>, x: Account, candles: seq<Candle>, ps: seq<MultiTPPoint>,
                                        d: nat, f: nat)
    requires |candles| > 1 && |trades| > 0 && OpenEntry(LastTrade(trades), x.posLongSize)
    requires LastTrade(trades).multiTPs == Some(ps) && Covers(ps, d, x.posLongSize)
    requires !Expired(LastTrade(trades), |candles| - 1) && !Stopped(LastTrade(trades), candles[|candles| - 1])
    requires Reaches(ps, d, f, candles[|candles| - 1].high)
    ensures var rel := |candles| - 1;
            var e := LastTrade(trades).(multiTPs := Some(DoneUpTo(ps, f)));
            var r := Managed(trades, x, candles);
            && r.0 == (if f == |ps| then trades + [Broken(e, rel, MultiTP)] else trades[|trades| - 1 := e])
            && r.1 == FireAll(Book(trades, e, x), DoneRange(ps, d, f), rel).account
            && r.1.posLongSize == SizeFrom(ps, f)
  {
    var rel := |candles| - 1;
    var e := LastTrade(trades).(multiTPs := Some(DoneUpTo(ps, f)));
    LadderEvent(LastTrade(trades), x.posLongSize, candles, ps, d, f);
    FiresAll(ps, d, f, Book(trades, e, x), rel);
    AppendTwice(trades, Broken(e, rel, MultiTP));
  }

  lemma {:induction false} FiresAll(ps: seq<MultiTPPoint>, d: nat, f: nat, b: Book, rel: int)
    requires Rungs(ps, d) && d < |ps| && d <= f <= |ps| && b.account.posLongSize == SizeFrom(ps, d)
    ensures var r := FireAll(b, DoneRange(ps, d, f), rel);
            && r.account.posLongSize == SizeFrom(ps, f)
            && r.latest == (if f == |ps| then Broken(b.latest, rel, MultiTP) else b.latest)
            && r.trades == (if f == |ps| then b.trades + [Broken(b.latest, rel, MultiTP)] else b.trades)
  {
    FiringCloses(ps, d, f, b, rel, f - d);
    assert DoneRange(ps, d, f)[..f - d] == DoneRange(ps, d, f);
  }

  // ---------- the log while exits are recorded ----------

  ghost predicate AllExits(acts: seq<Action>) {
    forall i :: 0 <= i < |acts| ==> IsExit(acts[i])
  }

  /** y differs from x by exits appended at candle rel; the balance at p moved by their net profit. */
  ghost predicate ExitsOnly(x: Account, y: Account, rel: int, p: real) {
    && (forall c :: c != rel ==> ActionsAt(y.actions, c) == ActionsAt(x.actions, c))
    && (forall c :: c in y.actions ==> c == rel || c in x.actions)
    && (forall c :: c in x.actions ==> c in y.actions)
    && AllExits(ActionsAt(y.actions, rel))
    && y.orderSlippagePerc == x.orderSlippagePerc && y.exchangeTradeFeePerc == x.exchangeTradeFeePerc
    && Balance(y, p) - NetOf(RowsOf(ActionsAt(y.actions, rel), p))
       == Balance(x, p) - NetOf(RowsOf(ActionsAt(x.actions, rel), p))
  }

  lemma {:induction false} OneExit(x: Account, price: real, perc: real, sz: real, rel: int, kind: Kind, p: real)
    requires AllExits(ActionsAt(x.actions, rel)) && kind != Enter && kind != Nothing
    ensures ExitsOnly(x, ClosedLong(x, price, perc, sz, rel, kind), rel, p)
    ensures var acts := ActionsAt(ClosedLong(x, price, perc, sz, rel, kind).actions, rel);
            acts == ActionsAt(x.actions, rel) + [ExitAction(x, price, OrderSize(x, perc, sz), kind)]
  {
    CloseMovesBalance(x, price, perc, sz, rel, kind, p);
    RowsOfAppend(ActionsAt(x.actions, rel), ExitAction(x, price, OrderSize(x, perc, sz), kind), p);
  }

  lemma {:induction false} ClosedToZero(x: Account, price: real, perc: real, sz: real, rel: int, kind: Kind)
    ensures var y := ClosedLong(x, price, perc, sz, rel, kind);
            y.posLongSize == 0.0 ==> y.totalEquity == y.availableEquity
  {
    assert Worth(0.0, price) == 0.0;
  }

  lemma {:induction false} ManyExits(b: Book, points: seq<MultiTPPoint>, rel: int, p: real)
    requires ActionsAt(b.account.actions, rel) == []
    ensures var y := FireAll(b, points, rel).account;
            && ExitsOnly(b.account, y, rel, p)
            && |ActionsAt(y.actions, rel)| == |points|
            && (|points| > 0 ==> rel in y.actions && var a := ActionsAt(y.actions, rel)[0];
                  a.kind == MultiTP && a.price == ExitPrice(b.account, points[0].price))
            && (|points| > 0 && y.posLongSize == 0.0 ==> y.totalEquity == y.availableEquity)
  {
    if |points| == 0 {
    } else {
      var front, last := points[..|points| - 1], points[|points| - 1];
      ManyExits(b, front, rel, p);
      var x := FireAll(b, front, rel).account;
      OneExit(x, last.price, -1.0, last.closeSize, rel, MultiTP, p);
      ClosedToZero(x, last.price, -1.0, last.closeSize, rel, MultiTP);
    }
  }

  /** Closing to zero makes all equity available. */
  lemma {:induction false} FlatEquity(x: Account, price: real, rel: int, kind: Kind)
    ensures var y := ClosedLong(x, price, 100.0, -1.0, rel, kind);
            y.posLongSize == 0.0 && y.totalEquity == y.availableEquity
  {
    FullCloseIsFlat(x, price, rel, kind);
  }
}
