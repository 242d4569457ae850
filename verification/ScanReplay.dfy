/** The replay loop of computeScan (chartmaster_helpers.go) around scanPivotTrends, with the cursor of
    computeBacktest. */
module ScanReplay {
  import opened Records
  import opened ChunkGaps
  import opened Replay
  import opened Deliveries
  import opened Scan
  import opened ScanRuns
  import FindPivots
  import PivotRuns
  import PivotSpec

  lemma {:induction false} ScanGrows(candles: seq<Candle>, ss: seq<ScanState>, c: Candle, s': ScanState)
    requires IsScan(candles, ss) && ScanCalled(candles + [c], ss[|candles|], s')
    ensures IsScan(candles + [c], ss + [s'])
  {
    var candles', ss' := candles + [c], ss + [s'];
    forall i | 0 <= i < |candles'| ensures ScanMoves(candles', ss', i) {
      if i < |candles| {
        assert candles'[..i + 1] == candles[..i + 1];
        assert ScanMoves(candles, ss, i);
      } else {
        assert candles'[..i + 1] == candles';
      }
    }
  }

  /** scanPivotTrends can be called on the next candle, whatever it is. */
  lemma {:induction false} NextCallable(candles: seq<Candle>, ss: seq<ScanState>, c: Candle)
    requires IsScan(candles, ss)
    ensures ScanSafe(ss[|candles|], candles + [c])
  {
    hide ScanMoves, ScanInv, ScanLink, ScanSafe, ScanStep;
    ScanKeepsInv(candles, ss, |candles|);
    assert candles[..|candles|] == candles == PivotRuns.Front(candles + [c]);
    ScanStepLinks(ss[|candles|], candles + [c]);
  }

  /** No scan gets stuck: on all candles there is one. */
  lemma {:induction false} ScanExists(candles: seq<Candle>) returns (ss: seq<ScanState>)
    ensures IsScan(candles, ss)
  {
    hide ScanMoves, ScanSafe, ScanStep;
    if |candles| == 0 {
      ss := [ScanState(PivotSpec.Pivots([], []), [], false)];
    } else {
      var front, c := PivotRuns.Front(candles), candles[|candles| - 1];
      ss := ScanExists(front);
      NextCallable(front, ss, c);
      assert candles == front + [c];
      var s' := ScanStep(ss[|front|], candles);
      ScanGrows(front, ss, c, s');
      ss := ss + [s'];
    }
  }

  /** One candle of the replay. */
  method ScanCandle(candles: seq<Candle>, c: Candle, high: seq<real>, low: seq<real>, store: ScanStore,
                    ghost ss: seq<ScanState>)
    requires IsScan(candles, ss) && store.View() == ss[|candles|]
    requires high == Highs(candles + [c]) && low == Lows(candles + [c])
    modifies store`points, store`watching, store.lists
    ensures IsScan(candles + [c], ss + [store.View()])
  {
    hide ScanMoves, ScanSafe, ScanStep;
    NextCallable(candles, ss, c);
    var labels := new FindPivots.Labels();
    var _ := ScanPivotTrends(candles + [c], high, low, store, labels);
    ScanGrows(candles, ss, c, store.View());
  }

  function CandlesIn(bars: seq<Bar>): seq<Candle> {
    seq(|bars|, i requires 0 <= i < |bars| => bars[i].candle)
  }

  /** The scan's store and the arrays that grow along with the candles. */
  class ScanSession {
    const store: ScanStore
    var allCandles: seq<Candle>
    var allHighs: seq<real>
    var allLows: seq<real>

    constructor ()
      ensures fresh(store) && fresh(store.lists)
      ensures Follows([], [ScanState(PivotSpec.Pivots([], []), [], false)])
    {
      store := new ScanStore();
      allCandles, allHighs, allLows := [], [], [];
    }

    /** Everything is as the scan ss over the candles of bars says. */
    ghost predicate Follows(bars: seq<Bar>, ss: seq<ScanState>)
      reads this, store, store.lists
    {
      && allCandles == CandlesIn(bars) && allHighs == Highs(allCandles) && allLows == Lows(allCandles)
      && IsScan(allCandles, ss) && store.View() == ss[|allCandles|]
    }

    /** One more candle. */
    method Next(bar: Bar, ghost bars: seq<Bar>, ghost ss0: seq<ScanState>) returns (ghost ss: seq<ScanState>)
      requires Follows(bars, ss0)
      modifies this, store`points, store`watching, store.lists
      ensures Follows(bars + [bar], ss)
    {
      hide IsScan;
      var c := bar.candle;
      allHighs, allLows := allHighs + [c.high], allLows + [c.low];
      ScanCandle(allCandles, c, allHighs, allLows, store, ss0);
      allCandles := allCandles + [c];
      ss := ss0 + [store.View()];
      ScanLength(allCandles, ss);
    }
  }

  lemma {:induction false} ScanLength(candles: seq<Candle>, ss: seq<ScanState>)
    requires IsScan(candles, ss)
    ensures |ss| == |candles| + 1
  {
  }

  /** One candle of a pass: the scan is called on it if it is the one required. */
  method ScanBar(cursor: Backtester, session: ScanSession, candle: Bar, last: Bar, endTime: int,
                 ghost ss0: seq<ScanState>)
    returns (restartLoop: bool, ghost ss: seq<ScanState>)
    requires !cursor.stuck && session.Follows(cursor.emitted, ss0)
    modifies cursor`requiredTime, cursor`emitted, cursor`stuck
    modifies session, session.store`points, session.store`watching, session.store.lists
    ensures (cursor.View(), restartLoop) == AtBar(old(cursor.View()), candle, last, cursor.allEmptyCandles, endTime)
    ensures !restartLoop ==> !cursor.stuck
    ensures session.Follows(cursor.emitted, ss)
  {
    hide ScanSession.Follows, SkipGap;
    ss := ss0;
    if cursor.requiredTime == candle.start {
      ss := session.Next(candle, cursor.emitted, ss);
    }
    restartLoop := cursor.AtCandle(candle, last, endTime);
  }

  /** One pass: the cursor goes over the arrived candles, and the scan is called on each that is replayed. */
  method ScanPass(cursor: Backtester, session: ScanSession, arrived: seq<Bar>, endTime: int, ghost ss0: seq<ScanState>)
    returns (ghost ss: seq<ScanState>)
    requires !cursor.stuck && session.Follows(cursor.emitted, ss0)
    modifies cursor`requiredTime, cursor`emitted, cursor`stuck
    modifies session, session.store`points, session.store`watching, session.store.lists
    ensures cursor.View() == Pass(old(cursor.View()), arrived, 0, cursor.allEmptyCandles, endTime)
    ensures session.Follows(cursor.emitted, ss)
  {
    hide ScanSession.Follows, AtBar;
    ghost var before := cursor.View();
    ss := ss0;
    var n := 0;
    while n < |arrived|
      invariant 0 <= n <= |arrived| && !cursor.stuck
      invariant Pass(before, arrived, 0, cursor.allEmptyCandles, endTime)
             == Pass(cursor.View(), arrived, n, cursor.allEmptyCandles, endTime)
      invariant session.Follows(cursor.emitted, ss)
    {
      var restartLoop;
      restartLoop, ss := ScanBar(cursor, session, arrived[n], arrived[|arrived| - 1], endTime, ss);
      if restartLoop {
        return;
      }
      n := n + 1;
    }
  }

  /** One message and one pass at a time, until the cursor stands at the end time. */
  method ScanAll(startTime: int, endTime: int, ds: seq<Delivery>)
    returns (received: nat, cursor: Backtester, session: ScanSession, ghost ss: seq<ScanState>)
    ensures received <= |ds| && forall n: nat :: 0 < n < received ==> GoesOn(startTime, endTime, ds, n)
    ensures received < |ds| ==> cursor.requiredTime == endTime || cursor.stuck
    ensures AllReceived(startTime, endTime, ds) ==> received == |ds|
    ensures cursor.View() == CursorAfter(startTime, endTime, ds[..received])
    ensures session.Follows(cursor.emitted, ss)
  {
    hide ScanSession.Follows, Pass;
    cursor := new Backtester(startTime);
    session := new ScanSession();
    ss := [ScanState(PivotSpec.Pivots([], []), [], false)];
    received := 0;
    while received < |ds|
      invariant received <= |ds| && !cursor.stuck
      invariant fresh(session) && fresh(session.store) && fresh(session.store.lists)
      invariant cursor.View() == CursorAfter(startTime, endTime, ds[..received])
      invariant cursor.allEmptyCandles == Messages(ds[..received])
      invariant forall n: nat :: 0 < n <= received ==> GoesOn(startTime, endTime, ds, n)
      invariant session.Follows(cursor.emitted, ss)
    {
      var d := ds[received];
      MessagesNext(ds, received);
      cursor.allEmptyCandles := cursor.allEmptyCandles + {d.message};
      ss := ScanPass(cursor, session, d.arrived, endTime, ss);
      received := received + 1;
      if cursor.stuck || cursor.requiredTime == endTime {
        assert !GoesOn(startTime, endTime, ds, received);
        break;
      }
    }
  }

  /** computeScan over what its channel delivers: a scan over exactly the candles the cursor takes, which leaves
      records in pairs, a start and an end, none overlapping the next. */
  method ComputeScan(startTime: int, endTime: int, ds: seq<Delivery>)
    returns (received: nat, cursor: Backtester, session: ScanSession, ghost ss: seq<ScanState>)
    ensures received <= |ds| && forall n: nat :: 0 < n < received ==> GoesOn(startTime, endTime, ds, n)
    ensures received < |ds| ==> cursor.requiredTime == endTime || cursor.stuck
    ensures AllReceived(startTime, endTime, ds) ==> received == |ds|
    ensures cursor.View() == CursorAfter(startTime, endTime, ds[..received])
    ensures IsScan(CandlesIn(cursor.emitted), ss) && session.store.View() == ss[|cursor.emitted|]
    ensures var points := session.store.points;
            && (|points| % 2 == 1 <==> session.store.watching)
            && (forall j: nat :: 2 * j + 1 < |points| ==> Ended(points, j, |cursor.emitted|))
            && (forall j: nat :: 2 * j + 2 < |points| ==> Apart(points, j))
  {
    hide ScanMoves;
    received, cursor, session, ss := ScanAll(startTime, endTime, ds);
    TrendsNeverOverlap(CandlesIn(cursor.emitted), ss, |cursor.emitted|);
  }
}
