/** Laws of the executor's arithmetic: take-profit sizes share out the position exactly, and
    cash plus position at entry price moves only by the profit less fees of each exit. */
module ExecutorLaws {
  import opened Records
  import opened Executor

  // ---------- sorting ----------

  ghost predicate SortedByPrice(s: seq<MultiTPPoint>) {
    forall i, j :: 0 <= i < j < |s| ==> s[i].price <= s[j].price
  }

  ghost predicate StrictlyByPrice(s: seq<MultiTPPoint>) {
    forall i, j :: 0 <= i < j < |s| ==> s[i].price < s[j].price
  }

  lemma {:induction false} InsertKeepsPoints(x: MultiTPPoint, s: seq<MultiTPPoint>)
    ensures multiset(Insert(x, s)) == multiset(s) + multiset{x}
  {
    if |s| == 0 {
    } else {
      InsertKeepsPoints(x, s[..|s| - 1]);
      assert s == s[..|s| - 1] + [s[|s| - 1]];
    }
  }

  lemma {:induction false} InsertSorts(x: MultiTPPoint, s: seq<MultiTPPoint>)
    requires SortedByPrice(s)
    ensures SortedByPrice(Insert(x, s))
  {
    if |s| > 0 && s[|s| - 1].price > x.price {
      var front, last := s[..|s| - 1], s[|s| - 1];
      InsertSorts(x, front);
      InsertKeepsPoints(x, front);
      AppendSorts(Insert(x, front), last);
    } else {
      AppendSorts(s, x);
    }
  }

  lemma {:induction false} AppendSorts(s: seq<MultiTPPoint>, last: MultiTPPoint)
    requires SortedByPrice(s) && forall y :: y in multiset(s) ==> y.price <= last.price
    ensures SortedByPrice(s + [last])
  {
    assert forall i :: 0 <= i < |s| ==> s[i] in multiset(s);
  }

  /** The sort returns the same points by ascending price. */
  lemma {:induction false} SortByPriceSorts(s: seq<MultiTPPoint>)
    ensures SortedByPrice(SortByPrice(s)) && multiset(SortByPrice(s)) == multiset(s)
  {
    if |s| == 0 {
    } else {
      var front := s[..|s| - 1];
      SortByPriceSorts(front);
      InsertSorts(s[|s| - 1], SortByPrice(front));
      InsertKeepsPoints(s[|s| - 1], SortByPrice(front));
      assert s == front + [s[|s| - 1]];
    }
  }

  /** Points already in order stay as they are. */
  lemma {:induction false} SortKeepsOrdered(s: seq<MultiTPPoint>)
    requires StrictlyByPrice(s)
    ensures SortByPrice(s) == s
  {
    if |s| == 0 {
    } else {
      var front, last := s[..|s| - 1], s[|s| - 1];
      SortKeepsOrdered(front);
      assert |front| > 0 ==> front[|front| - 1].price < last.price;
      assert Insert(last, front) == front + [last] == s;
    }
  }

  // ---------- sizes ----------

  /** Total size of the points from position d on. */
  ghost function SizeFrom(ps: seq<MultiTPPoint>, d: nat): real
    requires d <= |ps|
    decreases |ps| - d
  {
    if d == |ps| then 0.0 else ps[d].closeSize + SizeFrom(ps, d + 1)
  }

  lemma {:induction false} SizeFromTail(x: MultiTPPoint, ps: seq<MultiTPPoint>, d: nat)
    requires d <= |ps|
    ensures SizeFrom([x] + ps, d + 1) == SizeFrom(ps, d)
    decreases |ps| - d
  {
    if d == |ps| {
    } else {
      SizeFromTail(x, ps, d + 1);
    }
  }

  /** Percentages of all points but the last. */
  ghost function PercBeforeLast(ps: seq<MultiTPPoint>): real {
    if |ps| <= 1 then 0.0 else ps[0].closePerc + PercBeforeLast(ps[1..])
  }

  /** However the percentages are chosen, the sizes add up to the whole position. */
  lemma {:induction false} SizesAddUp(ps: seq<MultiTPPoint>, size: real, remaining: real)
    requires |ps| > 0
    ensures SizeFrom(WithSizes(ps, size, remaining), 0) == remaining
  {
    if |ps| <= 1 {
    } else {
      var c := Share(ps[0].closePerc, size);
      SizesAddUp(ps[1..], size, remaining - c);
      SizeFromTail(ps[0].(closeSize := c), WithSizes(ps[1..], size, remaining - c), 0);
    }
  }

  lemma {:induction false} ShareSplits(a: real, b: real, x: real)
    ensures Share(a + b, x) == Share(a, x) + Share(b, x)
  {
  }

  lemma {:induction false} SharePositive(a: real, x: real)
    requires a > 0.0 && x > 0.0
    ensures Share(a, x) > 0.0
  {
  }

  /** With positive percentages whose first ones sum below what remains, every size is positive. */
  lemma {:induction false} SizesPositive(ps: seq<MultiTPPoint>, size: real, remaining: real)
    requires size > 0.0 && forall i :: 0 <= i < |ps| ==> ps[i].closePerc > 0.0
    requires Share(PercBeforeLast(ps), size) < remaining
    ensures forall i :: 0 <= i < |ps| ==> WithSizes(ps, size, remaining)[i].closeSize > 0.0
  {
    if |ps| <= 1 {
    } else {
      var c := Share(ps[0].closePerc, size);
      ShareSplits(ps[0].closePerc, PercBeforeLast(ps[1..]), size);
      SharePositive(ps[0].closePerc, size);
      SizesPositive(ps[1..], size, remaining - c);
    }
  }

  /** Sizing changes nothing but the sizes. */
  lemma {:induction false} SizesKeepRest(ps: seq<MultiTPPoint>, size: real, remaining: real)
    ensures forall i :: 0 <= i < |ps| ==>
              WithSizes(ps, size, remaining)[i] == ps[i].(closeSize := WithSizes(ps, size, remaining)[i].closeSize)
  {
    if |ps| <= 1 {
    } else {
      SizesKeepRest(ps[1..], size, remaining - Share(ps[0].closePerc, size));
    }
  }

  // ---------- balance ----------

  /** Cash plus the position at its entry price p. */
  ghost function Balance(x: Account, p: real): real {
    x.availableEquity + Worth(x.posLongSize, p)
  }

  /** Profit less fee of an exit from a position entered at p, as the trade log computes it. */
  function NetProfit(a: Action, p: real): real {
    Worth(a.posSize, a.price) - Worth(a.posSize, p) - a.exchangeFee
  }

  lemma {:induction false} LessIsRest(perc: real, x: real)
    ensures Less(perc, x) == x - Share(perc, x)
  {
  }

  lemma {:induction false} WorthSplits(a: real, b: real, p: real)
    ensures Worth(a - b, p) == Worth(a, p) - Worth(b, p)
  {
  }

  /** Each exit moves the balance by exactly its net profit. */
  lemma {:induction false} CloseMovesBalance(x: Account, price: real, perc: real, sz: real, c: int, kind: Kind, p: real)
    ensures var y := ClosedLong(x, price, perc, sz, c, kind);
            Balance(y, p) == Balance(x, p) + NetProfit(ExitAction(x, price, OrderSize(x, perc, sz), kind), p)
  {
    var size := OrderSize(x, perc, sz);
    LessIsRest(x.exchangeTradeFeePerc, Worth(size, ExitPrice(x, price)));
    WorthSplits(x.posLongSize, size, p);
  }

  lemma {:induction false} DivideBack(a: real, b: real)
    requires b != 0.0
    ensures (a / b) * b == a
  {
  }

  /** Entering from a flat account leaves the balance, at the price paid, where the cash was;
      the entry fee only makes the position smaller. */
  lemma {:induction false} BuyKeepsBalance(x: Account, price: real, sl: real, accRisk: real, lev: int, c: int,
                                           points: seq<MultiTPPoint>)
    requires price != 0.0 && EntryPrice(x, price) != 0.0 && x.posLongSize == 0.0
    ensures Balance(Bought(x, price, sl, accRisk, lev, c, points, true).0, EntryPrice(x, price)) == x.availableEquity
  {
    var cap := CalcEntry(price, sl, accRisk, x.availableEquity, lev).0;
    DivideBack(EntryCap(x, cap), EntryPrice(x, price));
  }

  /** A full close leaves no position. */
  lemma {:induction false} FullCloseIsFlat(x: Account, price: real, c: int, kind: Kind)
    ensures ClosedLong(x, price, 100.0, -1.0, c, kind).posLongSize == 0.0
  {
    assert Share(100.0, x.posLongSize) == x.posLongSize;
  }

  // ---------- at any rates ----------

  function Percent(p: real, x: real): real {
    x * p / 100.0
  }

  function Times(a: real, b: real): real {
    a * b
  }

  lemma {:induction false} PercentsAre(p: real, x: real)
    ensures Share(p, x) == Percent(p, x) && Less(p, x) == x - Percent(p, x) && More(p, x) == x + Percent(p, x)
  {
    assert x * p / 100.0 == p / 100.0 * x;
    assert x * (1.0 - p / 100.0) == x - x * (p / 100.0) && x * (1.0 + p / 100.0) == x + x * (p / 100.0);
    assert x * (p / 100.0) == x * p / 100.0;
  }

  lemma {:induction false} TimesIs(a: real, b: real)
    ensures Worth(a, b) == Times(a, b)
  {
  }

  /** What every simulated sale does: the size asked for, or if that is not positive the percentage of the position,
      goes at the price less slippage; cash rises by the proceeds less the fee, and equity is cash plus what is left
      at the price before slippage. */
  lemma {:induction false} AnySaleIs(x: Account, price: real, perc: real, sz: real, c: int, kind: Kind)
    ensures var size := if sz > 0.0 then sz else Percent(perc, x.posLongSize);
            var paid := price - Percent(x.orderSlippagePerc, price);
            var fee := Percent(x.exchangeTradeFeePerc, Times(size, paid));
            var cash, rest := x.availableEquity + Times(size, paid) - fee, x.posLongSize - size;
            ClosedLong(x, price, perc, sz, c, kind)
            == x.(availableEquity := cash, posLongSize := rest, totalEquity := cash + Times(rest, price),
                  actions := x.actions[c := ActionsAt(x.actions, c) + [Action(kind, paid, 0.0, size, 0.0, fee)]])
  {
    hide Percent, Share, Less, Times, Worth;
    var size := OrderSize(x, perc, sz);
    PercentsAre(perc, x.posLongSize);
    PercentsAre(x.orderSlippagePerc, price);
    PercentsAre(x.exchangeTradeFeePerc, Worth(size, ExitPrice(x, price)));
    TimesIs(size, ExitPrice(x, price));
    TimesIs(x.posLongSize - size, price);
  }

  /** What every simulated buy does with the capital it is given: nothing if that is 10 or less; otherwise the capital
      less the fee is paid, at the price plus slippage, out of the cash, and total equity becomes the cash there was. */
  lemma {:induction false} AnyBuyIs(x: Account, price: real, sl: real, accRisk: real, lev: int, c: int,
                                    points: seq<MultiTPPoint>, long: bool)
    requires price != 0.0 && EntryPrice(x, price) != 0.0
    ensures var cap := CalcEntry(price, sl, accRisk, x.availableEquity, lev).0;
            var y := Bought(x, price, sl, accRisk, lev, c, points, long).0;
            var paid := price + Percent(x.orderSlippagePerc, price);
            var fee := Percent(x.exchangeTradeFeePerc, cap);
            var size, cash := if long then y.posLongSize else y.posShortSize, x.availableEquity - (cap - fee);
            if cap <= 10.0 then y == x
            else
              && Times(size, paid) == cap - fee
              && y == x.(availableEquity := cash, totalEquity := x.availableEquity, lastEntryEquity := cap - fee,
                         posLongSize := if long then size else x.posLongSize,
                         posShortSize := if long then x.posShortSize else size,
                         actions := x.actions[c := ActionsAt(x.actions, c) +
                                                   [Action(Enter, paid, sl, size, Percent(accRisk, cash), fee)]])
  {
    hide Percent, Share, Less, More, CalcEntry, CompletedTPs;
    var cap := CalcEntry(price, sl, accRisk, x.availableEquity, lev).0;
    PercentsAre(x.orderSlippagePerc, price);
    PercentsAre(x.exchangeTradeFeePerc, cap);
    PercentsAre(accRisk, x.availableEquity - EntryCap(x, cap));
    DivideBack(EntryCap(x, cap), EntryPrice(x, price));
  }
}
