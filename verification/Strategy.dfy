/** strat1 (user_strats.go) as a step function: pivots, cooldown gates, managing the open trade
    and looking for an entry, once per candle. */
module Strategy {
  import opened Records
  import opened Executor
  import opened TrendBreak
  import opened EntryLog
  import opened EntryWatch
  import PivotSpec

  const ORDER_SLIPPAGE_PERC := 0.15
  const EXCHANGE_TRADE_FEE_PERC := 0.075
  const TP_COOLDOWN_CANDLES := 0
  const ML_PERIOD := 11

  /** What machineLearningModel returns. strat1 turns tpSingle into the one-entry map
      {tpSingle: 100}; the model allows any take-profit map. */
  datatype Params = Params(pivotLowsToEnter: int, maxDurationCandles: int, slPerc: real, slCooldownCandles: int,
      tpMap: seq<Target>)

  /** The package globals that decide when the parameters are renewed. */
  datatype Schedule = Schedule(firstTime: bool, runMLPeriod: int, params: Params)

  /** What survives from one candle to the next: globals, PivotsStore and the executor. */
  datatype State = State(schedule: Schedule, pivots: PivotSpec.Pivots, trades: seq<DataPoint>, account: Account)

  // ---------- parameters and gates ----------

  /** Parameters are renewed every 12th candle, and only while flat. */
  function Renewed(s: Schedule, posLongSize: real, ml: Params): Schedule {
    if s.firstTime then s.(firstTime := false)
    else if s.runMLPeriod == ML_PERIOD then
      s.(runMLPeriod := 0, params := if posLongSize == 0.0 then ml else s.params)
    else s.(runMLPeriod := s.runMLPeriod + 1)
  }

  /** The actions of the latest candle in 1 .. c that has any. */
  function LatestActions(actions: map<int, seq<Action>>, c: int): seq<Action> {
    if c < 1 then []
    else if |ActionsAt(actions, c)| > 0 then ActionsAt(actions, c)
    else LatestActions(actions, c - 1)
  }

  function LastTrade(trades: seq<DataPoint>): DataPoint
    requires |trades| > 0
  {
    trades[|trades| - 1]
  }

  predicate CoolingDown(trades: seq<DataPoint>, latest: seq<Action>, slCooldownCandles: int, rel: int) {
    && |trades| > 0 && |latest| > 0
    && (|| (latest[0].kind == SL && rel <= LastTrade(trades).breakIndex + slCooldownCandles)
        || (latest[0].kind == MultiTP && rel <= LastTrade(trades).breakIndex + TP_COOLDOWN_CANDLES))
  }

  // ---------- managing the open trade ----------

  /** breakTrend without its statistics. */
  function Broken(e: DataPoint, breakIndex: int, action: Kind): DataPoint {
    e.(breakIndex := breakIndex, endAction := action)
  }

  predicate HasTPs(e: DataPoint) {
    e.multiTPs.Some? && |e.multiTPs.value| > 0 && e.multiTPs.value[0].price > 0.0
  }

  /** The trade list, the latest entry data and the executor while a candle is managed. */
  datatype Book = Book(trades: seq<DataPoint>, latest: DataPoint, account: Account)

  /** One fired take-profit point; the last one of its set also breaks the trend. */
  function FireOne(b: Book, p: MultiTPPoint, rel: int): Book {
    var e := if p.order == p.total then Broken(b.latest, rel, MultiTP) else b.latest;
    Book(if p.order == p.total then b.trades + [e] else b.trades, e,
         ClosedLong(b.account, p.price, -1.0, p.closeSize, rel, MultiTP))
  }

  function FireAll(b: Book, points: seq<MultiTPPoint>, rel: int): Book {
    if |points| == 0 then b
    else FireOne(FireAll(b, points[..|points| - 1], rel), points[|points| - 1], rel)
  }

  function Apply(b: Book, ev: Event, rel: int): Book {
    if ev.index > 0 && ev.price > 0.0 && ev.action != MultiTP then
      var e := Broken(b.latest, ev.index, ev.action);
      Book(b.trades + [e], e, ClosedLong(b.account, ev.price, 100.0, -1.0, rel, ev.action))
    else if ev.index > 0 && ev.action == MultiTP && |ev.points| > 0 && ev.points[0].price > 0.0 then
      FireAll(b, ev.points, rel)
    else b
  }

  /** The branch for an open position. */
  function Managed(trades: seq<DataPoint>, x: Account, candles: seq<Candle>): (seq<DataPoint>, Account)
    requires |candles| > 0 && |trades| > 0 && TrailReadable(LastTrade(trades), |candles|)
  {
    var rel := |candles| - 1;
    var o := Check(LastTrade(trades), rel, rel, candles);
    match o.event
    case None => (trades, x)
    case Some(ev) =>
      var b := Apply(Book(trades, if HasTPs(ev.updated) then ev.updated else o.entry, x), ev, rel);
      (if HasTPs(ev.updated) && |b.trades| > 0 then b.trades[|b.trades| - 1 := b.latest] else b.trades, b.account)
  }

  // ---------- looking for an entry ----------

  function StopFactor(slPerc: real): real {
    1.0 - slPerc / 100.0
  }

  function MinTradingIndex(trades: seq<DataPoint>, latest: seq<Action>, slCooldownCandles: int): int {
    var lastTradeExitIndex := if |trades| == 0 then 0 else LastTrade(trades).breakIndex;
    if |latest| > 0 && latest[0].kind == SL then lastTradeExitIndex + slCooldownCandles
    else if |latest| > 0 && latest[0].kind == MultiTP then lastTradeExitIndex + TP_COOLDOWN_CANDLES
    else lastTradeExitIndex
  }

  /** The pivot low to enter on, if the latest eligible one is the latest of all. */
  function EntryPivot(trades: seq<DataPoint>, latest: seq<Action>, pl: seq<nat>, candles: seq<Candle>, params: Params)
    : (r: Option<nat>)
    requires Priced(Lows(candles), pl) && Searchable(pl, params.pivotLowsToEnter, 0)
    ensures r.Some? ==> |pl| > 0 && r.value == pl[|pl| - 1] < |candles|
  {
    var possible := Watch(Lows(candles), pl, params.pivotLowsToEnter, 0);
    if |possible| == 0 || |pl| == 0 then None
    else
      var entry := possible[|possible| - 1];
      if entry > MinTradingIndex(trades, latest, params.slCooldownCandles) && entry == pl[|pl| - 1]
      then Some(entry) else None
  }

  /** The record logged for an entry on candle rel. */
  function EntryRecord(trades: seq<DataPoint>, entry: nat, candles: seq<Candle>, params: Params): DataPoint
    requires entry < |candles|
  {
    Logged(|candles| - 1, entry, candles, trades, params.maxDurationCandles, StopFactor(params.slPerc),
           -1.0, -1.0, -1.0, Some(params.tpMap)).(actualEntryIndex := |candles| - 1)
  }

  function PointsIn(e: DataPoint): seq<MultiTPPoint> {
    if e.multiTPs.Some? then e.multiTPs.value else []
  }

  predicate Buyable(x: Account, candles: seq<Candle>) {
    |candles| > 0 && candles[|candles| - 1].close != 0.0 && EntryPrice(x, candles[|candles| - 1].close) != 0.0
  }

  function Entered(trades: seq<DataPoint>, x: Account, entry: nat, candles: seq<Candle>, risk: real, lev: int,
                   params: Params)
    : (seq<DataPoint>, Account)
    requires entry < |candles| && Buyable(x, candles)
  {
    var rel := |candles| - 1;
    var e := EntryRecord(trades, entry, candles, params);
    var (y, completed) := Bought(x, candles[rel].close, e.slPrice, risk, lev, rel, PointsIn(e), true);
    (trades + [e.(multiTPs := Some(completed))], y)
  }

  // ---------- one candle ----------

  /** The account with the rates strat1 sets on every call. */
  function WithRates(x: Account): Account {
    x.(orderSlippagePerc := ORDER_SLIPPAGE_PERC, exchangeTradeFeePerc := EXCHANGE_TRADE_FEE_PERC)
  }

  function NextPivots(s: State, candles: seq<Candle>): PivotSpec.Pivots
    requires |candles| > 0 && PivotSpec.IndexSafe(s.pivots)
  {
    PivotSpec.Step(Highs(candles), Lows(candles), |candles| - 1, s.pivots)
  }

  function NextParams(s: State, ml: Params): Params {
    Renewed(s.schedule, s.account.posLongSize, ml).params
  }

  /** The call gets to the branch that looks for an entry. */
  predicate Searching(trades: seq<DataPoint>, x: Account, pl: seq<nat>, params: Params, rel: int) {
    && !CoolingDown(trades, LatestActions(x.actions, rel - 1), params.slCooldownCandles, rel)
    && |pl| >= 4 && x.posLongSize <= 0.0
  }

  /** The first pivot low of the series, which is read when any low closes one, is listed. */
  predicate FirstListed(lows: seq<real>, pl: seq<nat>, count: int)
    requires Priced(lows, pl) && Searchable(pl, count, 0)
  {
    |Watch(lows, pl, count, 0)| > 0 ==> 0 <= |pl| - 1 - (count - 1) < |pl|
  }

  /** No access of the trading part is out of range. */
  predicate TradeSafe(trades: seq<DataPoint>, x: Account, pl: seq<nat>, candles: seq<Candle>, params: Params) {
    && Buyable(x, candles)
    && (x.posLongSize > 0.0 ==> |trades| > 0 && TrailReadable(LastTrade(trades), |candles|))
    && Priced(Lows(candles), pl) && Searchable(pl, params.pivotLowsToEnter, 0)
    && (Searching(trades, x, pl, params, |candles| - 1) ==> FirstListed(Lows(candles), pl, params.pivotLowsToEnter))
  }

  /** The trading part of a candle, after pivots and parameters have been brought up to date. */
  function Trade(trades: seq<DataPoint>, x: Account, pl: seq<nat>, candles: seq<Candle>, risk: real, lev: int,
                 params: Params)
    : (seq<DataPoint>, Account)
    requires TradeSafe(trades, x, pl, candles, params)
  {
    var rel := |candles| - 1;
    var latest := LatestActions(x.actions, rel - 1);
    if CoolingDown(trades, latest, params.slCooldownCandles, rel) || |pl| < 4 then (trades, x)
    else if x.posLongSize > 0.0 then Managed(trades, x, candles)
    else
      match EntryPivot(trades, latest, pl, candles, params)
      case None => (trades, x)
      case Some(entry) => Entered(trades, x, entry, candles, risk, lev, params)
  }

  /** No index of the call is out of range and no integer division is by zero. */
  predicate Safe(s: State, candles: seq<Candle>, ml: Params) {
    && |candles| > 0 && PivotSpec.IndexSafe(s.pivots)
    && TradeSafe(s.trades, WithRates(s.account), NextPivots(s, candles).pl, candles, NextParams(s, ml))
    && NextParams(s, ml).pivotLowsToEnter != -1
  }

  /** The number strat1 returns, from the remainders of the list lengths by the lows asked for plus one. */
  function Returned(p: PivotSpec.Pivots, params: Params): int
    requires params.pivotLowsToEnter != -1
  {
    var n := params.pivotLowsToEnter + 1;
    if |p.ph| % n == 0 && |p.pl| % n != 0 then params.pivotLowsToEnter * 2 - |p.ph| % n
    else params.pivotLowsToEnter * 2 - |p.ph| % n - |p.pl| % n
  }

  /** One call of strat1; candles are those so far, the last one being new. */
  function Step(s: State, candles: seq<Candle>, risk: real, lev: int, ml: Params): State
    requires Safe(s, candles, ml)
  {
    var p := NextPivots(s, candles);
    var r := Trade(s.trades, WithRates(s.account), p.pl, candles, risk, lev, NextParams(s, ml));
    State(Renewed(s.schedule, s.account.posLongSize, ml), p, r.0, r.1)
  }
}
