/** logEntry (user_func_helpers.go): the record of an entry at a pivot low. */
module EntryLog {
  import opened Records

  /** One entry of the take-profit map: profit percent -> percent of the position to close. */
  datatype Target = Target(profitPerc: real, closePerc: real)

  predicate Duplicate(dataPoints: seq<DataPoint>, entryIndex: nat) {
    exists i :: 0 <= i < |dataPoints| && dataPoints[i].entryLastPLIndex == entryIndex
  }

  /** The pivot was not used before and a later candle exceeds its high. */
  ghost predicate Confirmed(candles: seq<Candle>, dataPoints: seq<DataPoint>, p: nat)
    requires p < |candles|
  {
    !Duplicate(dataPoints, p) && exists a :: p < a < |candles| && candles[a].high > candles[p].high
  }

  /** The first candle from i on whose high exceeds that of the entry pivot. */
  function FirstHigher(candles: seq<Candle>, entryIndex: nat, i: nat): (r: Option<nat>)
    requires entryIndex < |candles|
    ensures r.Some? ==> i <= r.value < |candles| && candles[r.value].high > candles[entryIndex].high
    ensures forall k :: i <= k < |candles| && (r.Some? ==> k < r.value) ==> candles[k].high <= candles[entryIndex].high
    decreases |candles| - i
  {
    if i >= |candles| then None
    else if candles[i].high > candles[entryIndex].high then Some(i)
    else FirstHigher(candles, entryIndex, i + 1)
  }

  function TargetPrice(close: real, profitPerc: real): real {
    close * (1.0 + profitPerc / 100.0)
  }

  /** The take-profit points; tpMap is listed by ascending profit percent, as its sorted keys are. */
  function PointsOf(tpMap: seq<Target>, close: real): seq<MultiTPPoint> {
    seq(|tpMap|, i requires 0 <= i < |tpMap| =>
      MultiTPPoint(i + 1, false, TargetPrice(close, tpMap[i].profitPerc), tpMap[i].closePerc, 0.0, |tpMap|))
  }

  /** The stop factor times the close of the current candle. */
  function Scaled(factor: real, close: real): real {
    factor * close
  }

  /** The record of an entry confirmed at candle a. */
  function EntryAt(a: nat, rel: nat, entryIndex: nat, candles: seq<Candle>, maxDuration: int, slPerc: real,
                   tpPerc: real, startTrailPerc: real, trailingPerc: real, tpMap: Option<seq<Target>>): DataPoint
    requires a < |candles| && rel < |candles|
  {
    NoEntry.(entryClose := candles[a].close, entryLastPLIndex := entryIndex, actualEntryIndex := a,
             maxExitIndex := a + maxDuration,
             slPrice := Scaled(slPerc, candles[rel].close),
             multiTPs := if tpMap.None? then None else Some(PointsOf(tpMap.value, candles[a].close)),
             tpPrice := if tpPerc > 0.0 then Scaled(tpPerc, candles[rel].close) else 0.0,
             startTrailPerc := if startTrailPerc > 0.0 then startTrailPerc else 0.0,
             trailingPerc := if trailingPerc > 0.0 then trailingPerc else 0.0)
  }

  /** The empty record when the pivot was used before or no later candle exceeds its high. */
  function Logged(rel: nat, entryIndex: nat, candles: seq<Candle>, dataPoints: seq<DataPoint>, maxDuration: int,
                  slPerc: real,
                  tpPerc: real, startTrailPerc: real, trailingPerc: real, tpMap: Option<seq<Target>>): DataPoint
    requires entryIndex < |candles| && rel < |candles|
  {
    var a := FirstHigher(candles, entryIndex, entryIndex + 1);
    if Duplicate(dataPoints, entryIndex) || a.None? then NoEntry
    else EntryAt(a.value, rel, entryIndex, candles, maxDuration, slPerc, tpPerc, startTrailPerc, trailingPerc, tpMap)
  }

  /** retData starts as the zero record, as both callers pass it. */
  method LogEntry(relCandleIndex: nat, entryIndex: nat, candles: seq<Candle>, dataPoints: seq<DataPoint>,
                  maxDurationCandles: int, slPerc: real, tpPerc: real, startTrailPerc: real, trailingPerc: real,
                  tpMap: Option<seq<Target>>)
    returns (retData: DataPoint)
    requires entryIndex < |candles| && relCandleIndex < |candles|
    ensures retData == Logged(relCandleIndex, entryIndex, candles, dataPoints, maxDurationCandles, slPerc, tpPerc,
                              startTrailPerc, trailingPerc, tpMap)
  {
    retData := NoEntry;
    for n := 0 to |dataPoints|
      invariant forall k :: 0 <= k < n ==> dataPoints[k].entryLastPLIndex != entryIndex
    {
      if dataPoints[n].entryLastPLIndex == entryIndex {
        return;
      }
    }
    var actualEntryIndex := -1;
    var i := entryIndex + 1;
    while i < |candles|
      invariant entryIndex < i <= |candles| && actualEntryIndex == -1
      invariant FirstHigher(candles, entryIndex, entryIndex + 1) == FirstHigher(candles, entryIndex, i)
    {
      if candles[i].high > candles[entryIndex].high {
        actualEntryIndex := i;
        break;
      }
      i := i + 1;
    }
    if actualEntryIndex > 0 {
      var close := candles[actualEntryIndex].close;
      retData := retData.(entryClose := close, entryLastPLIndex := entryIndex, actualEntryIndex := actualEntryIndex);
      retData := retData.(maxExitIndex := actualEntryIndex + maxDurationCandles);
      retData := retData.(slPrice := Scaled(slPerc, candles[relCandleIndex].close));
      if tpMap.Some? {
        var points := [];
        var n := 0;
        while n < |tpMap.value|
          invariant 0 <= n <= |tpMap.value| && points == PointsOf(tpMap.value, close)[..n]
        {
          var target := tpMap.value[n];
          var price := TargetPrice(close, target.profitPerc);
          points := points + [MultiTPPoint(n + 1, false, price, target.closePerc, 0.0, |tpMap.value|)];
          n := n + 1;
        }
        assert points == PointsOf(tpMap.value, close);
        retData := retData.(multiTPs := Some(points));
      }
      if tpPerc > 0.0 {
        retData := retData.(tpPrice := Scaled(tpPerc, candles[relCandleIndex].close));
      }
      if startTrailPerc > 0.0 {
        retData := retData.(startTrailPerc := startTrailPerc);
      }
      if trailingPerc > 0.0 {
        retData := retData.(trailingPerc := trailingPerc);
      }
    }
  }

  /** An entry is logged as the empty record exactly when its pivot was used before or every
      later candle stays at or below the pivot's high. */
  lemma {:induction false} EmptyIff(rel: nat, entryIndex: nat, candles: seq<Candle>, dataPoints: seq<DataPoint>,
                                    maxDuration: int, slPerc: real,
                 tpPerc: real, startTrailPerc: real, trailingPerc: real, tpMap: Option<seq<Target>>)
    requires entryIndex < |candles| && rel < |candles|
    ensures var r := Logged(rel, entryIndex, candles, dataPoints, maxDuration, slPerc, tpPerc, startTrailPerc,
                            trailingPerc, tpMap);
            && (r == NoEntry <==> Duplicate(dataPoints, entryIndex)
                                  || forall k :: entryIndex < k < |candles| ==>
                                      candles[k].high <= candles[entryIndex].high)
            && (r != NoEntry ==>
                entryIndex < r.actualEntryIndex < |candles| && r.maxExitIndex == r.actualEntryIndex + maxDuration)
  {
    var a := FirstHigher(candles, entryIndex, entryIndex + 1);
    if a.Some? {
      assert candles[a.value].high > candles[entryIndex].high;
    }
  }
}
