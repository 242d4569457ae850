/** The values passed between the strategy, the executor and the checks
    (types.go and user_func_types.go). */
module Records {

  datatype Option<+T> = None | Some(value: T)

  /** The fields of Candlestick the strategies read; minute is the minute of the day of TimeOpen. */
  datatype Candle = Candle(open: real, high: real, low: real, close: real, minute: nat)

  function Highs(candles: seq<Candle>): seq<real> {
    seq(|candles|, i requires 0 <= i < |candles| => candles[i].high)
  }

  function Lows(candles: seq<Candle>): seq<real> {
    seq(|candles|, i requires 0 <= i < |candles| => candles[i].low)
  }

  /** The action strings; Nothing is the empty string. */
  datatype Kind = Nothing | Enter | SL | TP | MultiTP | Max | Trail

  datatype MultiTPPoint = MultiTPPoint(order: int, isDone: bool, price: real, closePerc: real, closeSize: real,
      total: int)

  const NoPoint := MultiTPPoint(0, false, 0.0, 0.0, 0.0, 0)

  /** The fields of StrategyDataPoint that steer a trade; entryClose is the close of
      EntryTradeOpenCandle and multiTPs is None for a nil slice. */
  datatype DataPoint = DataPoint(
    slPrice: real, tpPrice: real, multiTPs: Option<seq<MultiTPPoint>>, entryClose: real,
    entryLastPLIndex: int, actualEntryIndex: int, maxExitIndex: int, breakIndex: int,
    trailingStarted: bool, startTrailPerc: real, trailingPerc: real, trailingMax: real, endAction: Kind)

  /** The zero value StrategyDataPoint{}. */
  const NoEntry := DataPoint(0.0, 0.0, None, 0.0, 0, 0, 0, 0, false, 0.0, 0.0, 0.0, Nothing)

  /** StrategyExecutorAction without its DateTime. */
  datatype Action = Action(kind: Kind, price: real, sl: real, posSize: real, riskedEquity: real, exchangeFee: real)
}
