/** The simulated-trade rows that saveDisplayData derives from the executor's actions and
    computeBacktest collects (chartmaster_helpers.go). */
module TradeLog {
  import opened Records
  import opened Executor
  import opened ExecutorLaws

  /** SimulatedTradeDataPoint: the rows of an entry, of an exit and of an empty action. */
  datatype Row =
    | EntryRow(entryPrice: real, posSize: real, riskedEquity: real, totalFees: real)
    | ExitRow(exitPrice: real, posSize: real, profit: real, totalFees: real)
    | BlankRow

  predicate IsExit(a: Action) {
    a.kind != Enter && a.kind != Nothing
  }

  /** Price of the last ENTER in one candle's actions; `otherwise` when there is none. */
  function LastEnter(acts: seq<Action>, otherwise: real): real {
    if |acts| == 0 then otherwise
    else if acts[|acts| - 1].kind == Enter then acts[|acts| - 1].price
    else LastEnter(acts[..|acts| - 1], otherwise)
  }

  predicate HasEnter(acts: seq<Action>) {
    exists i :: 0 <= i < |acts| && acts[i].kind == Enter
  }

  /** The price of the latest ENTER at candle c or before; candle 0 is never searched. */
  function EntryPriceAt(actions: map<int, seq<Action>>, c: int): real {
    if c <= 0 then 0.0
    else if HasEnter(ActionsAt(actions, c)) then LastEnter(ActionsAt(actions, c), 0.0)
    else EntryPriceAt(actions, c - 1)
  }

  function RowOf(a: Action, entryPrice: real): Row {
    if IsExit(a)
    then ExitRow(a.price, a.posSize, Worth(a.posSize, a.price) - Worth(a.posSize, entryPrice), a.exchangeFee)
    else if a.kind == Enter then EntryRow(a.price, a.posSize, a.riskedEquity, a.exchangeFee)
    else BlankRow
  }

  function RowsOf(acts: seq<Action>, entryPrice: real): seq<Row> {
    if |acts| == 0 then []
    else RowsOf(acts[..|acts| - 1], entryPrice) + [RowOf(acts[|acts| - 1], entryPrice)]
  }

  /** The rows of candle c. */
  function Report(actions: map<int, seq<Action>>, c: int): seq<Row> {
    RowsOf(ActionsAt(actions, c), EntryPriceAt(actions, c))
  }

  /** computeBacktest keeps a candle's rows only if the first one carries a price. */
  function Kept(rows: seq<Row>): seq<Row> {
    if |rows| > 0 && ((rows[0].EntryRow? && rows[0].entryPrice > 0.0) || (rows[0].ExitRow? && rows[0].exitPrice > 0.0))
    then rows else []
  }

  /** Sum of Profit - TotalFees over the exit rows. */
  ghost function NetOf(rows: seq<Row>): real {
    if |rows| == 0 then 0.0
    else NetOf(rows[..|rows| - 1]) + (var r := rows[|rows| - 1]; if r.ExitRow? then r.profit - r.totalFees else 0.0)
  }

  /** The search back for the entry conditions. */
  method FindEntryPrice(actions: map<int, seq<Action>>, relIndex: int) returns (entryPrice: real)
    ensures entryPrice == EntryPriceAt(actions, relIndex)
  {
    entryPrice := 0.0;
    var i := 0;
    while i < relIndex
      invariant i >= 0 && entryPrice == 0.0
      invariant EntryPriceAt(actions, relIndex) == EntryPriceAt(actions, relIndex - i)
    {
      var foundEntry := false;
      var prevActions := if relIndex - i in actions then actions[relIndex - i] else [];
      var k := 0;
      while k < |prevActions|
        invariant 0 <= k <= |prevActions|
        invariant foundEntry <==> HasEnter(prevActions[..k])
        invariant entryPrice == LastEnter(prevActions[..k], 0.0)
      {
        assert prevActions[..k + 1][..k] == prevActions[..k];
        assert forall m :: 0 <= m < k ==> prevActions[..k + 1][m] == prevActions[..k][m];
        if prevActions[k].kind == Enter {
          entryPrice := prevActions[k].price;
          foundEntry := true;
          assert prevActions[..k + 1][k].kind == Enter;
        }
        k := k + 1;
      }
      assert prevActions[..k] == prevActions;
      if foundEntry {
        return;
      }
      NoEnterNoPrice(prevActions);
      i := i + 1;
    }
  }

  lemma {:induction false} NoEnterNoPrice(acts: seq<Action>)
    requires !HasEnter(acts)
    ensures LastEnter(acts, 0.0) == 0.0
  {
    if |acts| == 0 {
    } else {
      assert acts[|acts| - 1].kind != Enter;
      assert forall m :: 0 <= m < |acts| - 1 ==> acts[..|acts| - 1][m] == acts[m];
      NoEnterNoPrice(acts[..|acts| - 1]);
    }
  }

  /** The sim-trade part of saveDisplayData. */
  method SaveSimTrades(actions: map<int, seq<Action>>, relIndex: int) returns (rows: seq<Row>)
    ensures rows == Report(actions, relIndex)
  {
    rows := [];
    var acts := if relIndex in actions then actions[relIndex] else [];
    var k := 0;
    while k < |acts|
      invariant 0 <= k <= |acts|
      invariant rows == RowsOf(acts[..k], EntryPriceAt(actions, relIndex))
    {
      var a := acts[k];
      var sd := BlankRow;
      if a.kind != Enter && a.kind != Nothing {
        var entryPrice := FindEntryPrice(actions, relIndex);
        sd := ExitRow(a.price, a.posSize, Worth(a.posSize, a.price) - Worth(a.posSize, entryPrice), a.exchangeFee);
      } else if a.kind == Enter {
        sd := EntryRow(a.price, a.posSize, a.riskedEquity, a.exchangeFee);
      }
      assert acts[..k + 1][..k] == acts[..k];
      rows := rows + [sd];
      k := k + 1;
    }
    assert acts[..k] == acts;
  }

  // ---------- frames ----------

  /** Entry price and rows of a candle depend on the actions up to it only. */
  lemma {:induction false} EntryPriceFrame(a: map<int, seq<Action>>, b: map<int, seq<Action>>, c: int)
    requires forall k :: 1 <= k <= c ==> ActionsAt(a, k) == ActionsAt(b, k)
    ensures EntryPriceAt(a, c) == EntryPriceAt(b, c)
    decreases if c < 0 then 0 else c
  {
    if c <= 0 {
    } else {
      EntryPriceFrame(a, b, c - 1);
    }
  }

  /** Candles without an ENTER hand the entry price on. */
  lemma {:induction false} EntryPricePersists(a: map<int, seq<Action>>, c: int, d: int)
    requires 0 <= c <= d && forall k :: c < k <= d ==> !HasEnter(ActionsAt(a, k))
    ensures EntryPriceAt(a, d) == EntryPriceAt(a, c)
    decreases d
  {
    if c == d {
    } else {
      EntryPricePersists(a, c, d - 1);
    }
  }

  /** The price found for an exit on candle c is that of an ENTER on the latest candle up to it that has one, with no
      later one on that candle; without any, or with one on candle 0 only, it is zero. */
  ghost predicate IsEntryPrice(actions: map<int, seq<Action>>, c: int, price: real) {
    if exists k, m :: EntersAt(actions, c, k, m)
    then exists k, m :: LatestEnter(actions, c, k, m) && price == actions[k][m].price
    else price == 0.0
  }

  ghost predicate LatestEnter(actions: map<int, seq<Action>>, c: int, k: int, m: int) {
    && EntersAt(actions, c, k, m)
    && forall j, n :: EntersAt(actions, c, j, n) ==> j < k || (j == k && n <= m)
  }

  /** Action m of candle k, the first candle apart and up to c, is an entry. */
  ghost predicate EntersAt(actions: map<int, seq<Action>>, c: int, k: int, m: int) {
    1 <= k <= c && k in actions && 0 <= m < |actions[k]| && actions[k][m].kind == Enter
  }

  lemma {:induction false} LastEnterIs(acts: seq<Action>) returns (m: nat)
    requires HasEnter(acts)
    ensures m < |acts| && acts[m].kind == Enter && LastEnter(acts, 0.0) == acts[m].price
    ensures forall n :: m < n < |acts| ==> acts[n].kind != Enter
  {
    if acts[|acts| - 1].kind == Enter {
      m := |acts| - 1;
    } else {
      var i :| 0 <= i < |acts| && acts[i].kind == Enter;
      assert acts[..|acts| - 1][i].kind == Enter;
      m := LastEnterIs(acts[..|acts| - 1]);
    }
  }

  lemma {:induction false} EntryPriceIs(actions: map<int, seq<Action>>, c: int)
    ensures IsEntryPrice(actions, c, EntryPriceAt(actions, c))
    decreases if c < 0 then 0 else c
  {
    if c <= 0 {
    } else if HasEnter(ActionsAt(actions, c)) {
      var m := LastEnterIs(ActionsAt(actions, c));
      assert LatestEnter(actions, c, c, m);
    } else {
      EntryPriceIs(actions, c - 1);
      NoEntryOn(actions, c - 1, c, EntryPriceAt(actions, c - 1));
    }
  }

  lemma {:induction false} NoEntryOn(actions: map<int, seq<Action>>, b: int, c: int, price: real)
    requires 0 <= b && c == b + 1 && !HasEnter(ActionsAt(actions, c)) && IsEntryPrice(actions, b, price)
    ensures IsEntryPrice(actions, c, price)
  {
    forall k, m | EntersAt(actions, c, k, m) ensures EntersAt(actions, b, k, m) {
      assert ActionsAt(actions, k)[m].kind == Enter;
    }
    if i, n :| EntersAt(actions, b, i, n) {
      assert EntersAt(actions, c, i, n);
      var k, m :| LatestEnter(actions, b, k, m) && price == actions[k][m].price;
      assert LatestEnter(actions, c, k, m);
    }
  }

  lemma {:induction false} NetOfAppend(rows: seq<Row>, r: Row)
    ensures NetOf(rows + [r]) == NetOf(rows) + if r.ExitRow? then r.profit - r.totalFees else 0.0
  {
    assert (rows + [r])[..|rows|] == rows;
  }

  lemma {:induction false} RowsOfAppend(acts: seq<Action>, a: Action, p: real)
    ensures RowsOf(acts + [a], p) == RowsOf(acts, p) + [RowOf(a, p)]
    ensures NetOf(RowsOf(acts + [a], p)) == NetOf(RowsOf(acts, p)) + if IsExit(a) then NetProfit(a, p) else 0.0
  {
    assert (acts + [a])[..|acts|] == acts;
    NetOfAppend(RowsOf(acts, p), RowOf(a, p));
  }
}
