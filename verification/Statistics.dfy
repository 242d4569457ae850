/** What breakTrend reads and computes for the statistics of a trade (user_func_helpers.go). */
module Statistics {
  import opened Records
  import opened Strategy

  /** The indices are in range and the divisors not zero. */
  predicate BreakSafe(e: DataPoint, breakIndex: int, candles: seq<Candle>) {
    && 0 <= e.actualEntryIndex < |candles| && 0 <= breakIndex < |candles|
    && candles[e.actualEntryIndex].close != 0.0 && e.entryClose != 0.0
  }

  /** m is the first of the highest candles a .. b - 1, or a when there are none. */
  ghost predicate FirstHighest(candles: seq<Candle>, a: nat, b: int, m: nat) {
    && a <= m < |candles| && (m == a || m < b) && b <= |candles|
    && (forall i :: a <= i < b ==> candles[i].high <= candles[m].high)
    && (forall i :: a <= i < m ==> candles[i].high < candles[m].high)
  }

  ghost predicate FirstLowest(candles: seq<Candle>, a: nat, b: int, m: nat) {
    && a <= m < |candles| && (m == a || m < b) && b <= |candles|
    && (forall i :: a <= i < b ==> candles[i].low >= candles[m].low)
    && (forall i :: a <= i < m ==> candles[i].low > candles[m].low)
  }

  /** Extent and deepest drawdown before it, with growth and drawdown in percent. */
  datatype TrendStats = TrendStats(extent: nat, drawdown: nat, maxDrawdownPerc: real, growth: real)

  /** breakTrend without times, labels and the trailing figures. */
  method BreakTrend(candles: seq<Candle>, breakIndex: int, e: DataPoint, action: Kind)
    returns (retData: DataPoint, stats: TrendStats)
    requires BreakSafe(e, breakIndex, candles)
    ensures retData == Broken(e, breakIndex, action)
    ensures FirstHighest(candles, e.actualEntryIndex, breakIndex, stats.extent)
    ensures FirstLowest(candles, e.actualEntryIndex, stats.extent, stats.drawdown)
    ensures stats.maxDrawdownPerc * candles[e.actualEntryIndex].close
              == (candles[e.actualEntryIndex].close - candles[stats.drawdown].low) * 100.0
    ensures stats.growth * e.entryClose == (candles[stats.extent].high - e.entryClose) * 100.0
  {
    retData := e.(breakIndex := breakIndex);
    retData := retData.(endAction := action);
    var trendExtentIndex: nat := e.actualEntryIndex;
    var i := e.actualEntryIndex + 1;
    while i < breakIndex
      invariant e.actualEntryIndex < i && (i <= breakIndex || i == e.actualEntryIndex + 1)
      invariant FirstHighest(candles, e.actualEntryIndex, if i <= breakIndex then i else breakIndex, trendExtentIndex)
    {
      if candles[i].high > candles[trendExtentIndex].high {
        trendExtentIndex := i;
      }
      i := i + 1;
    }
    var maxDrawdownIndex: nat := e.actualEntryIndex;
    i := e.actualEntryIndex + 1;
    while i < trendExtentIndex
      invariant e.actualEntryIndex < i && (i <= trendExtentIndex || i == e.actualEntryIndex + 1)
      invariant FirstLowest(candles, e.actualEntryIndex, if i <= trendExtentIndex then i else trendExtentIndex,
                            maxDrawdownIndex)
    {
      if candles[i].low < candles[maxDrawdownIndex].low {
        maxDrawdownIndex := i;
      }
      i := i + 1;
    }
    var close := candles[e.actualEntryIndex].close;
    stats := TrendStats(trendExtentIndex, maxDrawdownIndex,
                        ((close - candles[maxDrawdownIndex].low) / close) * 100.0,
                        ((candles[trendExtentIndex].high - e.entryClose) / e.entryClose) * 100.0);
  }
}
