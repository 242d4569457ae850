/** How much a trade can cost: position sizing keeps the loss of a trade whose exits never fall
    below its stop within a fixed fraction of the equity, fees and slippage included. */
module LossBound {
  import opened Records
  import opened Executor
  import opened ExecutorLaws
  import opened LossArithmetic

  /** One exit of a given size, and its candle. */
  datatype Fill = Fill(price: real, size: real, kind: Kind, candle: int)

  /** One trade: what Buy is called with and the exits that follow, on whatever candles. */
  datatype Deal = Deal(price: real, sl: real, points: seq<MultiTPPoint>, entryCandle: int, fills: seq<Fill>)

  function Settled(x: Account, fills: seq<Fill>): Account {
    if |fills| == 0 then x
    else
      var f := fills[|fills| - 1];
      ClosedLong(Settled(x, fills[..|fills| - 1]), f.price, -1.0, f.size, f.candle, f.kind)
  }

  predicate Sized(fills: seq<Fill>) {
    forall i :: 0 <= i < |fills| ==> fills[i].size > 0.0
  }

  predicate AtOrAbove(fills: seq<Fill>, sl: real) {
    forall i :: 0 <= i < |fills| ==> fills[i].price >= sl
  }

  predicate Rated(x: Account, feePerc: real, slipPerc: real) {
    x.exchangeTradeFeePerc == feePerc && x.orderSlippagePerc == slipPerc
  }

  /** Fees and slippage are percentages below 100; risk and leverage are not negative. */
  predicate Sane(feePerc: real, slipPerc: real, risk: real, lev: int) {
    0.0 <= feePerc < 100.0 && 0.0 <= slipPerc < 100.0 && 0.0 <= risk && 0 <= lev
  }

  /** What a unit of money comes back as when bought and sold at one price. */
  function RoundTrip(feePerc: real, slipPerc: real): real
    requires slipPerc != -100.0
  {
    Less(feePerc, Less(slipPerc, 1.0)) / More(slipPerc, 1.0)
  }

  /** The largest fraction of the equity one trade can lose. */
  function MaxLoss(feePerc: real, slipPerc: real, risk: real, lev: int): real
    requires slipPerc != -100.0
  {
    var k := RoundTrip(feePerc, slipPerc);
    Less(feePerc, k * (risk / 100.0) + (1.0 - k) * (lev as real))
  }

  /** The exits are at or above the stop and close all that was bought. */
  predicate Exited(x: Account, d: Deal, risk: real, lev: int)
    requires d.price != 0.0 && EntryPrice(x, d.price) != 0.0
  {
    Sized(d.fills) && AtOrAbove(d.fills, d.sl) && Played(x, d, risk, lev).posLongSize == 0.0
  }

  function Played(x: Account, d: Deal, risk: real, lev: int): Account
    requires d.price != 0.0 && EntryPrice(x, d.price) != 0.0
  {
    Settled(Bought(x, d.price, d.sl, risk, lev, d.entryCandle, d.points, true).0, d.fills)
  }

  // ---------- position sizing ----------

  /** A capital within the leverage whose loss of the fraction rho stays within the risk. */
  ghost predicate Allowed(c: real, limit: real, rho: real, accRisk: real) {
    c <= limit && rho * c <= accRisk
  }

  /** The capital committed is the largest within the leverage whose loss at the stop stays within
      the risk; a stop above the entry price is refused, and so is one at it when the risk is negative. */
  lemma {:induction false} CapIsLargest(price: real, sl: real, risk: real, equity: real, lev: int, limit: real,
                                        accRisk: real)
    requires price > 0.0 && limit == equity * (lev as real) && accRisk == Share(risk, equity)
    ensures var (cap, size) := CalcEntry(price, sl, risk, equity, lev);
            var rho := (price - sl) / price;
            && (sl > price <==> rho < 0.0)
            && if sl > price || (sl == price && accRisk < 0.0) then cap == size == -1.0
               else && size * price == cap && Allowed(cap, limit, rho, accRisk)
                    && forall c :: Allowed(c, limit, rho, accRisk) ==> c <= cap
  {
    hide Share;
    var cap, rho := CalcEntry(price, sl, risk, equity, lev).0, (price - sl) / price;
    assert rho * price == price - sl;
    RatioSign(rho, price, price - sl);
    if sl <= price && !(sl == price && accRisk < 0.0) {
      assert cap / price * price == cap;
      forall c | Allowed(c, limit, rho, accRisk) ensures c <= cap {
        if rho > 0.0 {
          Quotient(accRisk, rho, c);
        }
      }
      if sl < price {
        Quotient(accRisk, rho, cap);
      }
    }
  }

  /** The unlevered size is bounded by the leverage, the loss at the stop by the risk. */
  lemma {:induction false} CapBounds(price: real, sl: real, risk: real, equity: real, lev: int)
    requires price > 0.0 && equity > 0.0 && risk >= 0.0 && lev >= 0
    ensures var cap, rho := CalcEntry(price, sl, risk, equity, lev).0, (price - sl) / price;
            cap > 10.0 ==> rho >= 0.0 && cap <= (lev as real) * equity && rho * cap <= (risk / 100.0) * equity
  {
    var rho := (price - sl) / price;
    var cap := CalcEntry(price, sl, risk, equity, lev).0;
    var accRisk := Share(risk, equity);
    assert accRisk >= 0.0;
    if rho > 0.0 {
      assert rho * (accRisk / rho) == accRisk;
      MulLeft(rho, cap, accRisk / rho);
    }
  }

  // ---------- exits at or above the stop ----------

  /** Cash plus what the position would bring at the stop. */
  ghost function Floor(x: Account, sl: real): real {
    x.availableEquity + Less(x.exchangeTradeFeePerc, Worth(x.posLongSize, ExitPrice(x, sl)))
  }

  lemma {:induction false} ExitAboveStop(x: Account, f: Fill, sl: real)
    requires 0.0 <= x.exchangeTradeFeePerc < 100.0 && 0.0 <= x.orderSlippagePerc < 100.0
    requires f.price >= sl && f.size > 0.0
    ensures Floor(ClosedLong(x, f.price, -1.0, f.size, f.candle, f.kind), sl) >= Floor(x, sl)
  {
    var a, b := ExitPrice(x, f.price), ExitPrice(x, sl);
    LessGrows(x.orderSlippagePerc, sl, f.price);
    WorthGrows(f.size, b, a);
    LessGrows(x.exchangeTradeFeePerc, Worth(f.size, b), Worth(f.size, a));
    WorthSplits(x.posLongSize, f.size, b);
    LessSplits(x.exchangeTradeFeePerc, Worth(x.posLongSize, b), Worth(f.size, b));
  }

  lemma {:induction false} LessGrows(perc: real, a: real, b: real)
    requires perc < 100.0 && a <= b
    ensures Less(perc, a) <= Less(perc, b)
  {
    MulLeft(1.0 - perc / 100.0, a, b);
  }

  lemma {:induction false} WorthGrows(size: real, p: real, q: real)
    requires size > 0.0 && p <= q
    ensures Worth(size, p) <= Worth(size, q)
  {
    MulLeft(size, p, q);
  }

  lemma {:induction false} LessSplits(perc: real, a: real, b: real)
    ensures Less(perc, a - b) == Less(perc, a) - Less(perc, b)
  {
  }

  lemma {:induction false} ExitsAboveStop(x: Account, fills: seq<Fill>, sl: real)
    requires 0.0 <= x.exchangeTradeFeePerc < 100.0 && 0.0 <= x.orderSlippagePerc < 100.0
    requires Sized(fills) && AtOrAbove(fills, sl)
    ensures var y := Settled(x, fills);
            Rated(y, x.exchangeTradeFeePerc, x.orderSlippagePerc) && Floor(y, sl) >= Floor(x, sl)
  {
    if |fills| == 0 {
    } else {
      ExitsAboveStop(x, fills[..|fills| - 1], sl);
      ExitAboveStop(Settled(x, fills[..|fills| - 1]), fills[|fills| - 1], sl);
    }
  }

  // ---------- one trade ----------

  /** What the position just bought would bring at its stop, in terms of the cap. */
  lemma {:induction false} StopProceeds(feePerc: real, slipPerc: real, cap: real, price: real, sl: real)
    requires price > 0.0 && 0.0 <= slipPerc < 100.0
    ensures More(slipPerc, price) != 0.0
    ensures Less(feePerc, Worth(cap / More(slipPerc, price), Less(slipPerc, sl)))
         == RoundTrip(feePerc, slipPerc) * ((sl / price) * cap)
  {
    var f, s, m := 1.0 - feePerc / 100.0, 1.0 - slipPerc / 100.0, 1.0 + slipPerc / 100.0;
    assert m > 0.0 && m * price > 0.0;
    Fractions(f, s, m, cap, price, sl);
    assert Less(feePerc, Less(slipPerc, 1.0)) == f * s;
  }

  lemma {:induction false} RoundTripIsFraction(feePerc: real, slipPerc: real)
    requires 0.0 <= feePerc < 100.0 && 0.0 <= slipPerc < 100.0
    ensures 0.0 <= RoundTrip(feePerc, slipPerc) <= 1.0
  {
    var f, s, m := 1.0 - feePerc / 100.0, 1.0 - slipPerc / 100.0, 1.0 + slipPerc / 100.0;
    var k := RoundTrip(feePerc, slipPerc);
    assert Less(feePerc, Less(slipPerc, 1.0)) == f * s && More(slipPerc, 1.0) == m;
    assert k * m == f * s;
    MulLeft(f, s, 1.0);
    assert 0.0 <= f * s <= 1.0 <= m;
    QuotientIsFraction(k, m, f * s);
  }

  /** What a position paid for with `paid` brings back at `frac` of its entry price. */
  function Back(feePerc: real, slipPerc: real, frac: real, paid: real): real
    requires slipPerc != -100.0
  {
    RoundTrip(feePerc, slipPerc) * (frac * paid)
  }

  /** The loss of a stop-out, fees and slippage included, against the equity. */
  lemma {:induction false} StopOut(feePerc: real, slipPerc: real, risk: real, lev: int, e: real, cap: real, rho: real,
                                   w: real)
    requires Sane(feePerc, slipPerc, risk, lev)
    requires cap <= (lev as real) * e && rho * cap <= (risk / 100.0) * e && w == 1.0 - rho
    ensures Less(feePerc, cap) - Back(feePerc, slipPerc, w, Less(feePerc, cap))
              <= e * MaxLoss(feePerc, slipPerc, risk, lev)
  {
    hide RoundTrip;
    RoundTripIsFraction(feePerc, slipPerc);
    LossIsBounded(1.0 - feePerc / 100.0, RoundTrip(feePerc, slipPerc), risk / 100.0, lev as real, e, cap, rho,
                  Less(feePerc, cap), w, MaxLoss(feePerc, slipPerc, risk, lev));
  }

  /** The floor of a position just bought. */
  lemma {:induction false} FloorOfEntry(x: Account, d: Deal, feePerc: real, slipPerc: real, risk: real, lev: int)
    requires 0.0 <= slipPerc < 100.0 && Rated(x, feePerc, slipPerc) && d.price > 0.0 && EntryPrice(x, d.price) != 0.0
    requires !TooSmall(CalcEntry(d.price, d.sl, risk, x.availableEquity, lev).0)
    ensures var paid := Less(feePerc, CalcEntry(d.price, d.sl, risk, x.availableEquity, lev).0);
            var y := Bought(x, d.price, d.sl, risk, lev, d.entryCandle, d.points, true).0;
            && Rated(y, feePerc, slipPerc)
            && Floor(y, d.sl) == x.availableEquity - paid + Back(feePerc, slipPerc, d.sl / d.price, paid)
  {
    StopProceeds(feePerc, slipPerc, Less(feePerc, CalcEntry(d.price, d.sl, risk, x.availableEquity, lev).0), d.price,
        d.sl);
  }

  /** A trade fully exited at or above its stop loses at most MaxLoss of the equity at entry. */
  lemma {:induction false} TradeLossBounded(x: Account, d: Deal, feePerc: real, slipPerc: real, risk: real, lev: int)
    requires Sane(feePerc, slipPerc, risk, lev) && Rated(x, feePerc, slipPerc)
    requires d.price > 0.0 && x.posLongSize == 0.0 && x.availableEquity > 0.0
    requires !TooSmall(CalcEntry(d.price, d.sl, risk, x.availableEquity, lev).0)
    requires EntryPrice(x, d.price) != 0.0 && Exited(x, d, risk, lev)
    ensures var y := Played(x, d, risk, lev);
            && Rated(y, feePerc, slipPerc) && y.posLongSize == 0.0
            && x.availableEquity - y.availableEquity <= x.availableEquity * MaxLoss(feePerc, slipPerc, risk, lev)
  {
    var e, rho, cap := x.availableEquity, (d.price - d.sl) / d.price,
        CalcEntry(d.price, d.sl, risk, x.availableEquity, lev).0;
    var y, z := Bought(x, d.price, d.sl, risk, lev, d.entryCandle, d.points, true).0, Played(x, d, risk, lev);
    CapBounds(d.price, d.sl, risk, e, lev);
    FloorOfEntry(x, d, feePerc, slipPerc, risk, lev);
    ExitsAboveStop(y, d.fills, d.sl);
    FloorWhenFlat(z, d.sl);
    StopFraction(d.price, d.sl);
    StopOut(feePerc, slipPerc, risk, lev, e, cap, rho, d.sl / d.price);
    var paid := Less(feePerc, cap);
    var back := Back(feePerc, slipPerc, d.sl / d.price, paid);
    assert z.availableEquity >= e - paid + back;
    Chain(e, z.availableEquity, paid, back, e * MaxLoss(feePerc, slipPerc, risk, lev));
  }

  lemma {:induction false} FloorWhenFlat(x: Account, sl: real)
    requires x.posLongSize == 0.0
    ensures Floor(x, sl) == x.availableEquity
  {
    assert Worth(0.0, ExitPrice(x, sl)) == 0.0;
  }

  /** With the stop at risk / leverage below the price the capital meets both limits. */
  lemma {:induction false} BothLimits(price: real, risk: real, equity: real, lev: int, rho: real, sl: real)
    requires price > 0.0 && 0.0 < risk && lev > 0 && rho == (risk / 100.0) / (lev as real) && sl == price * (1.0 - rho)
    ensures CalcEntry(price, sl, risk, equity, lev).0 == equity * (lev as real)
    ensures sl / price == 1.0 - rho && rho * (equity * (lev as real)) == (risk / 100.0) * equity
  {
    StopFraction(price, sl);
    var limit, accRisk := equity * (lev as real), Share(risk, equity);
    assert price - sl == rho * price;
    assert (rho * price) / price == rho;
    assert rho * (lev as real) == risk / 100.0;
    assert rho * limit == (rho * (lev as real)) * equity;
    assert rho > 0.0 && sl < price by { RatioSign(rho, lev as real, risk / 100.0); MulLeft(price, 1.0 - rho, 1.0); }
    CapIsLargest(price, sl, risk, equity, lev, limit, accRisk);
    assert Allowed(limit, limit, rho, accRisk);
  }

  /** The bound is reached: at whatever fees and slippage, a trade whose stop lies risk / leverage below
      the price and which is stopped out there loses exactly MaxLoss of the equity. */
  lemma {:induction false} BoundIsReached(x: Account, price: real, sl: real, feePerc: real, slipPerc: real, risk: real,
                                          lev: int, rho: real, a: int, b: int)
    requires Sane(feePerc, slipPerc, risk, lev) && Rated(x, feePerc, slipPerc) && x.posLongSize == 0.0 && price > 0.0
    requires 0.0 < risk && lev > 0 && rho == (risk / 100.0) / (lev as real) && sl == price * (1.0 - rho)
    requires x.availableEquity * (lev as real) > 10.0
    ensures EntryPrice(x, price) > 0.0
    ensures var size := Bought(x, price, sl, risk, lev, a, [], true).0.posLongSize;
            var d := Deal(price, sl, [], a, [Fill(sl, size, SL, b)]);
            && Exited(x, d, risk, lev)
            && x.availableEquity - Played(x, d, risk, lev).availableEquity
                == x.availableEquity * MaxLoss(feePerc, slipPerc, risk, lev)
  {
    EntryCosts(x, price);
    hide *;
    BothLimits(price, risk, x.availableEquity, lev, rho, sl);
    StoppedAtBothLimits(x, price, sl, feePerc, slipPerc, risk, lev, rho, x.availableEquity * (lev as real), a, b);
  }

  lemma {:induction false} EntryCosts(x: Account, price: real)
    requires 0.0 <= x.orderSlippagePerc && price > 0.0
    ensures EntryPrice(x, price) > 0.0
  {
    MulLeft(price, 1.0, 1.0 + x.orderSlippagePerc / 100.0);
  }

  lemma {:induction false} StoppedAtBothLimits(x: Account, price: real, sl: real, feePerc: real, slipPerc: real,
                                               risk: real, lev: int, rho: real, cap: real, a: int, b: int)
    requires Sane(feePerc, slipPerc, risk, lev) && Rated(x, feePerc, slipPerc) && x.posLongSize == 0.0 && price > 0.0
    requires CalcEntry(price, sl, risk, x.availableEquity, lev).0 == cap > 10.0 && EntryPrice(x, price) > 0.0
    requires cap == x.availableEquity * (lev as real) && rho * cap == (risk / 100.0) * x.availableEquity
    requires sl / price == 1.0 - rho
    ensures var size := Bought(x, price, sl, risk, lev, a, [], true).0.posLongSize;
            var d := Deal(price, sl, [], a, [Fill(sl, size, SL, b)]);
            && Exited(x, d, risk, lev)
            && x.availableEquity - Played(x, d, risk, lev).availableEquity
                == x.availableEquity * MaxLoss(feePerc, slipPerc, risk, lev)
  {
    hide Settled, Bought, CalcEntry, Back, MaxLoss, Less, Floor, EntryPrice;
    var y := Bought(x, price, sl, risk, lev, a, [], true).0;
    BoughtSize(x, price, sl, risk, lev, a, feePerc);
    var fill := Fill(sl, y.posLongSize, SL, b);
    SoldAtStop(y, fill);
    FloorOfEntry(x, Deal(price, sl, [], a, [fill]), feePerc, slipPerc, risk, lev);
    LossAtStop(feePerc, slipPerc, risk, lev, x.availableEquity, cap, rho, sl / price);
  }

  lemma {:induction false} BoughtSize(x: Account, price: real, sl: real, risk: real, lev: int, a: int, feePerc: real)
    requires x.exchangeTradeFeePerc == feePerc && 0.0 <= feePerc < 100.0 && price != 0.0 && EntryPrice(x, price) > 0.0
    requires CalcEntry(price, sl, risk, x.availableEquity, lev).0 > 10.0
    ensures Bought(x, price, sl, risk, lev, a, [], true).0.posLongSize > 0.0
  {
    hide CalcEntry;
    SizeBought(feePerc, CalcEntry(price, sl, risk, x.availableEquity, lev).0, EntryPrice(x, price));
  }

  /** Selling the whole position at the stop leaves exactly its floor. */
  lemma {:induction false} SoldAtStop(y: Account, f: Fill)
    requires f.size == y.posLongSize > 0.0
    ensures Settled(y, [f]).posLongSize == 0.0 && Settled(y, [f]).availableEquity == Floor(y, f.price)
  {
    OneFill(y, f);
  }

  lemma {:induction false} LossAtStop(feePerc: real, slipPerc: real, risk: real, lev: int, e: real, cap: real,
                                      rho: real, w: real)
    requires Sane(feePerc, slipPerc, risk, lev)
    requires cap == e * (lev as real) && rho * cap == (risk / 100.0) * e && w == 1.0 - rho
    ensures Less(feePerc, cap) - Back(feePerc, slipPerc, w, Less(feePerc, cap))
              == e * MaxLoss(feePerc, slipPerc, risk, lev)
  {
    hide RoundTrip;
    ReachesExactly(1.0 - feePerc / 100.0, RoundTrip(feePerc, slipPerc), risk / 100.0, lev as real, e, cap, rho,
                   Less(feePerc, cap), w, MaxLoss(feePerc, slipPerc, risk, lev));
  }

  lemma {:induction false} OneFill(x: Account, f: Fill)
    ensures Settled(x, [f]) == ClosedLong(x, f.price, -1.0, f.size, f.candle, f.kind)
  {
    assert [f][..0] == [] && Settled(x, []) == x;
  }

  lemma {:induction false} SizeBought(feePerc: real, cap: real, price: real)
    requires 0.0 <= feePerc < 100.0 && cap > 0.0 && price > 0.0
    ensures Less(feePerc, cap) / price > 0.0
  {
    var paid := Less(feePerc, cap);
    assert paid > 0.0;
    RatioSign(paid / price, price, paid);
  }

  // ---------- many trades ----------

  function Power(b: real, n: nat): real {
    if n == 0 then 1.0 else b * Power(b, n - 1)
  }

  /** Accounts before and after each of a series of trades. */
  ghost predicate IsSeries(xs: seq<Account>, deals: seq<Deal>, feePerc: real, slipPerc: real, risk: real, lev: int) {
    && |xs| == |deals| + 1
    && Rated(xs[0], feePerc, slipPerc) && xs[0].posLongSize == 0.0 && xs[0].availableEquity > 0.0
    && forall i :: 0 <= i < |deals| ==> SeriesStep(xs[i], xs[i + 1], deals[i], risk, lev)
  }

  /** Each trade is fully exited at or above its stop; when it is too small nothing happens. */
  ghost predicate SeriesStep(x: Account, x': Account, d: Deal, risk: real, lev: int) {
    && d.price > 0.0 && EntryPrice(x, d.price) != 0.0
    && (if TooSmall(CalcEntry(d.price, d.sl, risk, x.availableEquity, lev).0) then x' == x
        else Exited(x, d, risk, lev) && x' == Played(x, d, risk, lev))
  }

  lemma {:induction false} StepLoss(x: Account, x': Account, d: Deal, feePerc: real, slipPerc: real, risk: real,
                                    lev: int, q: real)
    requires Sane(feePerc, slipPerc, risk, lev) && q == MaxLoss(feePerc, slipPerc, risk, lev) && 0.0 <= q < 1.0
    requires Rated(x, feePerc, slipPerc) && x.posLongSize == 0.0 && x.availableEquity > 0.0
    requires SeriesStep(x, x', d, risk, lev)
    ensures Rated(x', feePerc, slipPerc) && x'.posLongSize == 0.0
    ensures x'.availableEquity >= x.availableEquity * (1.0 - q) && x'.availableEquity > 0.0
  {
    Shrinks(x.availableEquity, q);
    var e := x.availableEquity;
    if TooSmall(CalcEntry(d.price, d.sl, risk, e, lev).0) {
      assert x' == x;
    } else {
      TradeLossBounded(x, d, feePerc, slipPerc, risk, lev);
      KeepsShare(e, x'.availableEquity, q);
    }
  }

  /** After any number of such trades the equity is at least initial * (1 - q)^n. */
  lemma {:induction false} SeriesLossBounded(xs: seq<Account>, deals: seq<Deal>, feePerc: real, slipPerc: real,
                                             risk: real, lev: int, n: nat)
    requires Sane(feePerc, slipPerc, risk, lev) && 0.0 <= MaxLoss(feePerc, slipPerc, risk, lev) < 1.0
    requires IsSeries(xs, deals, feePerc, slipPerc, risk, lev) && n <= |deals|
    ensures Rated(xs[n], feePerc, slipPerc) && xs[n].posLongSize == 0.0 && xs[n].availableEquity > 0.0
    ensures xs[n].availableEquity >= xs[0].availableEquity * Power(1.0 - MaxLoss(feePerc, slipPerc, risk, lev), n)
  {
    hide SeriesStep, MaxLoss;
    if n == 0 {
    } else {
      var q, i := MaxLoss(feePerc, slipPerc, risk, lev), n - 1;
      SeriesLossBounded(xs, deals, feePerc, slipPerc, risk, lev, i);
      assert SeriesStep(xs[i], xs[i + 1], deals[i], risk, lev);
      StepLoss(xs[i], xs[i + 1], deals[i], feePerc, slipPerc, risk, lev, q);
      Compound(xs[0].availableEquity, xs[i].availableEquity, xs[n].availableEquity, 1.0 - q, i);
    }
  }

  lemma {:induction false} Compound(start: real, before: real, after: real, b: real, i: nat)
    requires before >= start * Power(b, i) && after >= before * b && b > 0.0
    ensures after >= start * Power(b, i + 1)
  {
    var p := Power(b, i);
    MulLeft(b, start * p, before);
    assert start * (b * p) == b * (start * p);
  }
}
