/** Position sizing, take-profit sizes and the simulated executor (types.go and calcEntry). */
module Executor {
  import opened Records

  // ---------- percentages ----------

  /** x and perc percent more. */
  function More(perc: real, x: real): real {
    (1.0 + perc / 100.0) * x
  }

  /** x less perc percent. */
  function Less(perc: real, x: real): real {
    (1.0 - perc / 100.0) * x
  }

  /** perc percent of x. */
  function Share(perc: real, x: real): real {
    (perc / 100.0) * x
  }

  function Worth(size: real, price: real): real {
    size * price
  }

  // ---------- position sizing ----------

  /** (posCap, posSize) such that a stop-out loses a fixed percentage of the account. When the stop is
      the entry price Go divides by zero: a positive share of the account gives plus infinity, which the
      leverage limit replaces; a negative one gives minus infinity, a refusal shown here as -1. */
  function CalcEntry(entryPrice: real, slPrice: real, accPercRisk: real, accSz: real, leverage: int): (real, real)
    requires entryPrice != 0.0
  {
    var rawRiskPerc := (entryPrice - slPrice) / entryPrice;
    if rawRiskPerc < 0.0 then (-1.0, -1.0)
    else
      var accRisk := Share(accPercRisk, accSz);
      var limit := accSz * (leverage as real);
      if rawRiskPerc == 0.0 && accRisk < 0.0 then (-1.0, -1.0)
      else
        var cap := if rawRiskPerc == 0.0 || accRisk / rawRiskPerc > limit then limit else accRisk / rawRiskPerc;
        (cap, cap / entryPrice)
  }

  // ---------- take-profit sizes ----------

  function Insert(x: MultiTPPoint, s: seq<MultiTPPoint>): seq<MultiTPPoint> {
    if |s| == 0 || s[|s| - 1].price <= x.price then s + [x]
    else Insert(x, s[..|s| - 1]) + [s[|s| - 1]]
  }

  /** The points by ascending price. */
  function SortByPrice(s: seq<MultiTPPoint>): (r: seq<MultiTPPoint>)
    ensures |r| == |s|
  {
    if |s| == 0 then [] else
      InsertLength(s[|s| - 1], SortByPrice(s[..|s| - 1]));
      Insert(s[|s| - 1], SortByPrice(s[..|s| - 1]))
  }

  lemma {:induction false} InsertLength(x: MultiTPPoint, s: seq<MultiTPPoint>)
    ensures |Insert(x, s)| == |s| + 1
  {
    if |s| == 0 {
    } else {
      InsertLength(x, s[..|s| - 1]);
    }
  }

  /** Each point closes its share of the whole, the last one whatever remains. */
  function WithSizes(ps: seq<MultiTPPoint>, size: real, remaining: real): (r: seq<MultiTPPoint>)
    ensures |r| == |ps|
  {
    if |ps| == 0 then []
    else if |ps| == 1 then [ps[0].(closeSize := remaining)]
    else
      var c := Share(ps[0].closePerc, size);
      [ps[0].(closeSize := c)] + WithSizes(ps[1..], size, remaining - c)
  }

  function CompletedTPs(points: seq<MultiTPPoint>, size: real): seq<MultiTPPoint> {
    var s := SortByPrice(points);
    if |s| > 0 && s[0].price > 0.0 then WithSizes(s, size, size) else []
  }

  // ---------- the executor ----------

  /** The fields of StrategyExecutor that the simulated branches use. */
  datatype Account = Account(
    posLongSize: real, posShortSize: real, totalEquity: real, availableEquity: real, lastEntryEquity: real,
    orderSlippagePerc: real, exchangeTradeFeePerc: real, actions: map<int, seq<Action>>)

  function ActionsAt(actions: map<int, seq<Action>>, c: int): seq<Action> {
    if c in actions then actions[c] else []
  }

  function Record(x: Account, c: int, a: Action): Account {
    x.(actions := x.actions[c := ActionsAt(x.actions, c) + [a]])
  }

  function Opened(e: real): Account {
    Account(0.0, 0.0, e, e, 0.0, 0.0, 0.0, map[])
  }

  function EntryPrice(x: Account, price: real): real {
    More(x.orderSlippagePerc, price)
  }

  function ExitPrice(x: Account, price: real): real {
    Less(x.orderSlippagePerc, price)
  }

  function EntryCap(x: Account, cap: real): real {
    Less(x.exchangeTradeFeePerc, cap)
  }

  predicate TooSmall(cap: real) {
    cap <= 10.0
  }

  /** Buy in simulation: the account afterwards and the sized take-profit points. */
  function Bought(x: Account, price: real, sl: real, accRisk: real, lev: int, c: int, points: seq<MultiTPPoint>,
                  long: bool)
    : (Account, seq<MultiTPPoint>)
    requires price != 0.0 && EntryPrice(x, price) != 0.0
  {
    var cap := CalcEntry(price, sl, accRisk, x.availableEquity, lev).0;
    if TooSmall(cap) then (x, [])
    else
      var size := EntryCap(x, cap) / EntryPrice(x, price);
      var avail := x.availableEquity - EntryCap(x, cap);
      var y := x.(availableEquity := avail, totalEquity := x.availableEquity, lastEntryEquity := EntryCap(x, cap),
                  posLongSize := if long then size else x.posLongSize,
                  posShortSize := if long then x.posShortSize else size);
      (Record(y, c, Action(Enter, EntryPrice(x, price), sl, size, Share(accRisk, avail),
                           Share(x.exchangeTradeFeePerc, cap))),
       CompletedTPs(points, size))
  }

  function OrderSize(x: Account, posPercToClose: real, closeSz: real): real {
    if closeSz > 0.0 then closeSz else Share(posPercToClose, x.posLongSize)
  }

  function ExitAction(x: Account, price: real, size: real, kind: Kind): Action {
    Action(kind, ExitPrice(x, price), 0.0, size, 0.0, Share(x.exchangeTradeFeePerc, Worth(size, ExitPrice(x, price))))
  }

  /** CloseLong in simulation. */
  function ClosedLong(x: Account, price: real, posPercToClose: real, closeSz: real, c: int, kind: Kind): Account {
    var size := OrderSize(x, posPercToClose, closeSz);
    var avail := x.availableEquity + Less(x.exchangeTradeFeePerc, Worth(size, ExitPrice(x, price)));
    var pos := x.posLongSize - size;
    Record(x.(availableEquity := avail, posLongSize := pos, totalEquity := avail + Worth(pos, price)),
           c, ExitAction(x, price, size, kind))
  }

  // ---------- the imperative form ----------

  /** sort.Slice on the caller's slice: a library call, taken to leave the points by ascending
      price. For the distinct prices of a trade every correct sort gives this result. */
  method SortInPlace(a: array<MultiTPPoint>)
    modifies a
    ensures a[..] == SortByPrice(old(a[..]))
  {
    var sorted := SortByPrice(a[..]);
    forall i | 0 <= i < a.Length {
      a[i] := sorted[i];
    }
    assert a[..] == sorted;
  }

  method CalcMultiTPs(multiTPs: array<MultiTPPoint>, actualPosSize: real) returns (ret: seq<MultiTPPoint>)
    modifies multiTPs
    ensures ret == CompletedTPs(old(multiTPs[..]), actualPosSize)
    ensures multiTPs[..] == SortByPrice(old(multiTPs[..]))
  {
    ret := [];
    SortInPlace(multiTPs);
    if multiTPs.Length > 0 && multiTPs[0].price > 0.0 {
      ghost var ps := multiTPs[..];
      var calcRemainingPosSize := actualPosSize;
      var i := 0;
      while i < multiTPs.Length
        invariant 0 <= i <= multiTPs.Length && ps == multiTPs[..]
        invariant WithSizes(ps, actualPosSize, actualPosSize)
               == ret + WithSizes(ps[i..], actualPosSize, calcRemainingPosSize)
      {
        var newPoint := multiTPs[i];
        assert newPoint == ps[i] && ps[i..][1..] == ps[i + 1..];
        if i == multiTPs.Length - 1 {
          newPoint := newPoint.(closeSize := calcRemainingPosSize);
        } else {
          newPoint := newPoint.(closeSize := Share(newPoint.closePerc, actualPosSize));
          calcRemainingPosSize := calcRemainingPosSize - newPoint.closeSize;
        }
        ghost var rest := WithSizes(ps[i + 1..], actualPosSize, calcRemainingPosSize);
        assert ret + ([newPoint] + rest) == (ret + [newPoint]) + rest;
        ret := ret + [newPoint];
        i := i + 1;
      }
    }
  }

  class StrategyExecutor {
    var posLongSize: real
    var posShortSize: real
    var totalEquity: real
    var availableEquity: real
    var lastEntryEquity: real
    var orderSlippagePerc: real
    var exchangeTradeFeePerc: real
    var actions: map<int, seq<Action>>

    function View(): Account
      reads this
    {
      Account(posLongSize, posShortSize, totalEquity, availableEquity, lastEntryEquity,
              orderSlippagePerc, exchangeTradeFeePerc, actions)
    }

    /** Init on a fresh executor. */
    constructor (e: real)
      ensures View() == Opened(e) && actions == map[]
      ensures totalEquity == availableEquity == e && posLongSize == posShortSize == lastEntryEquity == 0.0
      ensures orderSlippagePerc == exchangeTradeFeePerc == 0.0
    {
      posLongSize, posShortSize, lastEntryEquity := 0.0, 0.0, 0.0;
      orderSlippagePerc, exchangeTradeFeePerc := 0.0, 0.0;
      totalEquity := e;
      availableEquity := e;
      actions := map[];
    }

    method AddAction(cIndex: int, a: Action)
      modifies this`actions
      ensures View() == Record(old(View()), cIndex, a)
    {
      if cIndex !in actions {
        actions := actions[cIndex := []];
      }
      actions := actions[cIndex := actions[cIndex] + [a]];
      assert actions == old(actions)[cIndex := ActionsAt(old(actions), cIndex) + [a]];
    }

    method Buy(price: real, sl: real, accRisk: real, lev: int, cIndex: int, multiTPs: array<MultiTPPoint>,
               directionIsLong: bool)
      returns (ret: seq<MultiTPPoint>)
      requires price != 0.0 && EntryPrice(View(), price) != 0.0
      modifies this, multiTPs
      ensures (View(), ret) == Bought(old(View()), price, sl, accRisk, lev, cIndex, old(multiTPs[..]), directionIsLong)
    {
      ret := [];
      var actualPrice := More(orderSlippagePerc, price);
      var desired := CalcEntry(price, sl, accRisk, availableEquity, lev);
      var desiredPosCap := desired.0;
      if desiredPosCap <= 10.0 {
        return;
      }
      var actualCap := Less(exchangeTradeFeePerc, desiredPosCap);
      var exchangeFee := Share(exchangeTradeFeePerc, desiredPosCap);
      var actualPosSize := actualCap / actualPrice;
      availableEquity := availableEquity - actualCap;
      totalEquity := availableEquity + actualCap;
      lastEntryEquity := actualCap;
      if directionIsLong {
        posLongSize := actualPosSize;
      } else {
        posShortSize := actualPosSize;
      }
      ret := CalcMultiTPs(multiTPs, actualPosSize);
      AddAction(cIndex, Action(Enter, actualPrice, sl, actualPosSize, Share(accRisk, availableEquity), exchangeFee));
    }

    method CloseLong(price: real, posPercToClose: real, closeSz: real, cIndex: int, action: Kind)
      modifies this
      ensures View() == ClosedLong(old(View()), price, posPercToClose, closeSz, cIndex, action)
    {
      var orderSize := 0.0;
      if closeSz > 0.0 {
        orderSize := closeSz;
      } else {
        orderSize := Share(posPercToClose, posLongSize);
      }
      var actualClosePrice := Less(orderSlippagePerc, price);
      var actualCloseCap := Less(exchangeTradeFeePerc, Worth(orderSize, actualClosePrice));
      var exchangeFee := Share(exchangeTradeFeePerc, Worth(orderSize, actualClosePrice));
      availableEquity := availableEquity + actualCloseCap;
      posLongSize := posLongSize - orderSize;
      totalEquity := availableEquity + Worth(posLongSize, price);
      AddAction(cIndex, Action(action, actualClosePrice, 0.0, orderSize, 0.0, exchangeFee));
    }
  }
}
