# Verification of the candle-by-candle backtester

This project models the trading backtester of the repository and proves what holds over all its
runs. A run feeds one candle after another to the strategy `strat1` (or to the scan
`scanPivotTrends`). On every candle `findPivots` brings two lists of pivot indices up to date; while
no position is open the strategy looks for a series of descending pivot lows to buy on, and while
one is open it checks stop, take-profit points and deadline. The simulated executor keeps cash and
position, and the display code turns its actions into the trade log. The candles themselves come
from goroutines that fetch one chunk each and report missing minutes on a channel.

| files | subject |
|---|---|
| PivotSpec, FindPivots, PivotRuns, PivotTheorems, PivotCalls, PivotLabels | the pivot detector, its whole runs, what every call of a run finds, the labels it writes |
| FallingMarket, RisingMarket, ZigZag, TurningRuns | the pivots of three markets in closed form |
| EntryWatch, EntryLog, TrendBreak, TrendEnds, Statistics | looking for entries, logging them, checking and breaking an open trade, when a check finds an event |
| Executor, ExecutorLaws, TradeLog | sizing, simulated buys and sells, simulated-trade rows |
| Strategy, Strat1, Countdown, Ladder, OpenTrade, StrategyRuns, Renewals | `strat1` as a step function and in its own imperative form; the number it returns; whole runs |
| EntryDecision, Entries, OpenCandles, TradeRows | when `strat1` enters, and what an entry and a candle of an open trade do to record, account and log, in the source's own numbers |
| TradeTheorems, Cooldown, Accounting, LossArithmetic, LossBound, RunLoss, ExitsAtStop | what happens to positions and to money in every run |
| FirstEntry, UnsoldRun, DeadlineLoss, TargetLoss, NoLowsAsked | runs in which a position is never sold, or sold below its stop, or `strat1` panics |
| Scan, ScanRuns, ScanDecision, ScanReplay | `scanPivotTrends`: its runs, when it starts and ends a trend |
| ChunkGaps, Replay, Pipeline, RangeReports, GapReplay, Finishing | gap reports of a chunk and of a range, the replay cursor, all interleavings of the fetch, which of them end |
| Deliveries, Backtest, RangeBacktest | what the fetch delivers to a replay loop; one replayed candle: indicators, strategy and display; the loop of `computeBacktest` |
| Indicators, CalendarRanges, SavedCandles | moving averages, calendar ranges, the saved-candle text |

Where the Go code updates something in place there is a class or a method with loops, and its
contract equates the new state with a function of the old one; the laws are lemmas about those
functions and about runs built from them. What a candle decides and what it does to record, account
and log is stated over runs once more without those functions, with thresholds, rates and limits
written out (PivotCalls, EntryDecision, Entries, OpenCandles, TradeRows, ScanDecision, TrendEnds).
Prices, sizes and equity are `real`; minutes and indices
are integers. What `machineLearningModel` returns is an arbitrary input of every candle.

All lemmas carry `{:induction false}`, so that every induction is written out.

Eight properties one might expect are false of the code. Each has a concrete input and the exact
condition under which it holds:

- Not every position is closed. `logEntry` returns an empty record when its pivot was used before
  or no later candle exceeds the pivot's high, and `strat1` buys all the same; such a position is
  never closed. One with a confirmed pivot is closed by its deadline, or, if a negative duration has
  put the deadline index at zero, exactly when a later candle reaches its stop or last target
  (`TradeTheorems.ClosedIffConfirmed`). In a market that falls by one each candle the position that a
  fresh process buys on candle 204 is never sold (`UnsoldRun.UnsoldRunExists`).
- A trade can cost more than its stop allows. The deadline is checked before the stop, and targets
  are reckoned from the close of the candle that confirmed the pivot, the stop from that of the entry.
  With low <= high on the candles, a closed trade with record e, entered on candle k and closed on
  candle c, sells nothing below its stop if and only if the close of candle c is not below the stop
  when c is past the deadline, and the first take-profit price is not below the stop, unless e has no
  points or candle k + 1 is past the deadline or reaches the stop (`ExitsAtStop.ExitsAtStopIff`; for
  all trades of a run `ExitsAtStop.RunSellsAboveIff`). Then the loss is bounded
  (`ExitsAtStop.KeptStopsBoundTheLoss`). Either half can fail: in a run of ten candles the deadline
  sells at 1 with the stop at 95.04 (`DeadlineLoss.DeadlineSellsBelowStop`), and in one of fifteen the
  target sells at 81.7075 with the stop at 98.01 (`TargetLoss.TargetSellsBelowStop`).
- `strat1` does not accept every answer of `machineLearningModel`. A call stays in range and divides
  no integer by zero if and only if the number of pivot lows in force is not -1 (the modulus of its
  last lines) and, if the call looks for an entry (flat, four lows, no cooldown), is at least one
  (`StrategyRuns.NextIsSafeIff`): with fewer every low closes a series, and the read of
  `stored.PivotLows` at user_strats.go:322 is past the end (`StrategyRuns.FirstListedIff`). A fresh
  process that is given zero or less panics on the call that finds the fourth low, and on the second
  call if it is given -1 (`NoLowsAsked.NoLowsPanics`).
- Not every fetched candle is replayed. Every interleaving that finishes replays all candles held if
  and only if no candle is held for a minute after one that has none
  (`GapReplay.ReplayedIffNoGapFollowed`). Otherwise it depends on the interleaving; one that receives
  all reports first loses each candle after a gap (`GapReplay.LosesAfterGaps`), and one that has only
  the first window can end with all later windows lost (`GapReplay.LaterWindowsLost`,
  `GapReplay.LastCandleLost`). In a gap reported in part the cursor waits on the last minute reported
  (`Replay.SkipGapWaits`), even if that minute has a candle that is still to come
  (`GapReplay.WaitsOnLastReported`).
- Not every replay ends. With some candle held, or an empty range, every interleaving takes a bounded
  number of steps and can only stop when it is done; with none held the closed channel keeps the loop
  going for ever (`Finishing.FinishesIff`, `Finishing.EveryReplayFinishes`, `Finishing.NeverFinishes`).
- Minutes that have a candle are reported as missing too. Over a whole range the reports name minutes
  without a candle only, if and only if every chunk satisfies one of two cases: no candle of it follows
  its first gap, and it is empty or complete or the minute after its window has no candle either; or the
  only candle after its first gap is that of the last minute of its window
  (`RangeReports.ReportsAbsentOnlyIff`; as heard by the loop in all interleavings,
  `RangeReports.HeardAbsentOnlyIff`). A chunk judged by its own candles alone reports absent minutes
  only, exactly when no candle follows its first gap or just that of the last minute
  (`ChunkGaps.OnlyAbsentIff`). Both ways to fail have an input: a candle after a gap
  (`ChunkGaps.PresentMinuteReported`), and two chunks each fine by itself of which the first reports
  the first minute of the second (`RangeReports.NextWindowReported`).
- Inserting into the calendar does not always keep its ranges apart: exactly a stored range inside
  the new one that shares an endpoint with it breaks this (`CalendarRanges.DisjointIffNoClash`,
  `CalendarRanges.SharedEndpointOverlaps`).
- A saved candle list does not always read back: it does exactly when it is not empty, no time string
  holds a separator and no number has more than six decimals (`SavedCandles.RoundTripIff`,
  `SavedCandles.EmptyListFails`).

`strat1` enters on descending pivot lows only, and after an exit it always enters again once the
latest low qualifies (`EntryDecision.EntersAgainIff`). `scanPivotTrends` starts a trend on an unwatched
candle exactly on three descending lows, the latest more than 35 candles after the last break and
between 06:36 and 07:48 or 08:24 and 09:00 (`ScanDecision.EveryScanCandle`).

The fee of an entry only makes the position smaller; equity is never charged for it, and the trade
log agrees (`ExecutorLaws.BuyKeepsBalance`, `Accounting.FlatEquityIsTheLog`).

## Model

| member | source | states |
|---|---|---|
| PivotSpec.ExtremeIsRightmost | strat_helpers.go:82-87 | the backward search ends on the rightmost extreme of the candles after the latest pivot: nothing there beats it, and it beats everything to its right |
| PivotSpec.ScanFindsFirst | strat_helpers.go:71-108 | the forward loop stops at the first candle that confirms a pivot, and finds none exactly when no candle does |
| FindPivots.CheckExists | strat_helpers.go:7-16 | true exactly for the values in the slice |
| FindPivots.SearchBack | strat_helpers.go:79-94 | the loop over earlier candles yields that extreme, or the given candle when there is nothing to search |
| FindPivots.ExamineHigh | strat_helpers.go:72-108 | one turn of the search for a high accepts a candle, and which one, exactly as the search specification says |
| FindPivots.ExamineLow | strat_helpers.go:126-181 | the same for lows |
| FindPivots.FindPivots | strat_helpers.go:19-192 | one call appends at most the pivot found to the list searched for, labels it at its bars-back offset in the matching map, and changes nothing else |
| PivotRuns.FoundIsNext | strat_helpers.go:54-131 | a new pivot lies after the latest one and at most 50 candles behind the current one; nothing found means the timeout has not run out |
| PivotRuns.ShapeOrder | strat_helpers.go:28-52 | the direction of the search follows from the lengths of the lists, and the latest pivot ends the other list |
| PivotRuns.StepKeepsInv | strat_helpers.go:19-192 | every call keeps alternation, spacing and index safety, whatever the candle |
| PivotTheorems.TwoShapes | strat_helpers.go:28-52 | in every run the lists are never indexed while empty and have one of two shapes, the one with a shared first candle 50 only after a first high by timeout |
| RisingMarket.RisingSharesFirstCandle | strat_helpers.go:28-52 | the second shape occurs: in every rising market candle 50 is the first high, by timeout, and the first low |
| PivotTheorems.BoundedSilence | strat_helpers.go:54-72 | after every candle the latest pivot is at most 50 back, neighbours are at most 50 apart, and m pivots reach at least index n - 50 in the sense 50m + 50 >= n |
| PivotTheorems.LowsAreIncreasing | strat_helpers.go:40-52 | the pivot lows of a run are strictly increasing and never on candle 0 |
| PivotTheorems.PivotsAreExtremes | strat_helpers.go:79-94 | every pivot after the first of its kind was found by a call of the run, is the rightmost extreme between the previous pivot and its confirming candle, and is cleared by that candle in both series, unless the call was the one 51 candles after the previous pivot |
| PivotTheorems.ListsOnlyGrow | strat_helpers.go:96-99 | what a run has found so far stays at its place in the lists |
| PivotCalls.EveryCall | strat_helpers.go:19-192 | what each call of every run does to the lists: which series is searched, which candles confirm, which one is taken, and what the call 51 candles after the latest pivot takes, with the limit of 50 written out |
| PivotCalls.FirstPivotsAre | strat_helpers.go:54-181 | in every run the first high is the first candle followed by one below it in both series, or candle 50; the first low is the first candle from the first high on that is followed by one above it, or the fiftieth after that high; with no pivot yet there is no such candle |
| PivotLabels.Display.SaveTopLabels | chartmaster_helpers.go:305-329 | the candle is appended unlabelled and each label reaches the candle at its offset, in whatever order the map is ranged over |
| PivotLabels.NextMarks | chartmaster_helpers.go:305-329 | one more candle keeps "H" on exactly the pivot highs |
| PivotLabels.LabelsMarkThePivotHighs | strat_helpers.go:99-105 | after any run that starts with no candles, candle k carries "H" exactly when it is a pivot high and nothing otherwise |
| EntryWatch.FindSearchStart | user_func_helpers.go:37-49 | the first loop ends at the pivot that completes the count |
| EntryWatch.LowerLows | user_func_helpers.go:51-70 | true exactly when the last `count` pivot lows descend |
| EntryWatch.PivotWatchEntryCheck | user_func_helpers.go:32-73 | the loops return what the search specification says, never indexing before position 0 |
| EntryWatch.WatchOnRuns | user_func_helpers.go:32-73 | on the pivot lows of any run the result is, in order, exactly the lows from position N - 1 on whose last N pivot lows strictly descend |
| EntryLog.LogEntry | user_func_helpers.go:75-181 | the record: duplicate check, first later candle above the pivot's high, deadline, stop, targets and take-profit points |
| EntryLog.EmptyIff | user_func_helpers.go:82-98 | the record is empty exactly when the pivot was used before or no later candle exceeds its high; otherwise its entry and deadline |
| Entries.LoggedIs | user_func_helpers.go:75-181 | every call, whatever it is asked for: the record of a confirmed unused pivot field by field, with stop and target as fractions of the current close and the points in the order of the map; otherwise the zero record |
| TrendBreak.CheckMultiTPs | user_func_helpers.go:205-270 | the points that fire, the order in which they are returned and the points left in the record |
| TrendBreak.CheckCandle | user_func_helpers.go:194-304 | what one candle does to the record: stop, target, take-profit points, trailing |
| TrendBreak.CheckTrendBreak | user_func_helpers.go:183-305 | event and updated record of a call: deadline first, then the candles in turn up to the first event |
| TrendBreak.CheckSplits | user_func_helpers.go:194-304 | until the deadline, checking [a,b] and then [b+1,c] gives the same event and the same record as checking [a,c] |
| TrendBreak.TrailingNeverFalls | user_func_helpers.go:278-299 | once trailing, the maximum is the running maximum of the highs up to the event, the stop level never falls, and every candle before the event stayed above it |
| TrendEnds.CheckIs | user_func_helpers.go:183-305 | a call on any record without take-profit points: at the deadline the close; before it the first candle that reaches stop, target or trailing stop, in this order on one candle, the trailing stop being so many percent below the highest high since the first candle that reached the start price, which itself is not tested |
| TrendEnds.PointsCheckIs | user_func_helpers.go:205-276 | a record with take-profit points is checked on the first candle only: stop, else target, else the points reached, in order, with the price of the last one or -1, and the record it leaves |
| TrendEnds.RefreshedIs | user_func_helpers.go:231-266 | the points reached are marked done in the record if and only if the first one not done before is among them |
| Statistics.BreakTrend | user_func_helpers.go:307-334 | break index and action are set, the extent is the first highest candle since the entry, the drawdown the first lowest before it, and both percentages follow |
| TradeTheorems.BreakIsSafe | user_func_helpers.go:307-334 | whenever a run breaks a trade, breakTrend reads in range and divides by positive numbers |
| TradeTheorems.EntryReadsInRange | user_func_helpers.go:104-134 | whenever a run logs an entry, at least one low was asked for, its pivot is the last of the list and found nowhere else, and the lows logEntry reads at or before it are listed, as are their candles |
| Executor.CalcMultiTPs | types.go:369-397 | the slice is left sorted by price and the result is sized point by point, the last one taking the remainder |
| Executor.StrategyExecutor.constructor | types.go:346-351 | a fresh executor holds the given equity and nothing else |
| Executor.StrategyExecutor.AddAction | types.go:431-443 | the action goes to the end of its candle's list |
| Executor.StrategyExecutor.Buy | types.go:400-445 | account, logged action and sized take-profit points of a simulated buy; nothing when the capital is 10 or less |
| Executor.StrategyExecutor.CloseLong | types.go:521-553 | account and logged action of a simulated sale, by size or by percentage |
| ExecutorLaws.SortByPriceSorts | types.go:372-376 | the sort returns the same points by ascending price |
| ExecutorLaws.SizesAddUp | types.go:378-394 | whatever the percentages, the sizes add up to the whole position |
| ExecutorLaws.SizesPositive | types.go:378-394 | with positive percentages, all but the last summing below 100, every size is positive |
| ExecutorLaws.SizesKeepRest | types.go:378-394 | sizing changes nothing but the sizes |
| ExecutorLaws.CloseMovesBalance | types.go:522-553 | each exit moves cash plus position at entry price by exactly its profit less its fee |
| ExecutorLaws.BuyKeepsBalance | types.go:403-443 | entering leaves cash plus position at the price paid where the cash was |
| ExecutorLaws.FullCloseIsFlat | types.go:523-535 | a full close leaves no position and makes all equity available |
| ExecutorLaws.AnyBuyIs | types.go:400-445 | at any rates, risk and direction: nothing for a capital of 10 or less; otherwise the capital less the fee is paid, at the price plus slippage, out of the cash, and total equity becomes the cash there was |
| ExecutorLaws.AnySaleIs | types.go:521-553 | at any rates: the size asked for, or else the percentage of the position, goes at the price less slippage; cash rises by the proceeds less the fee and equity is cash plus the rest at the price before slippage |
| TradeLog.FindEntryPrice | chartmaster_helpers.go:400-421 | the price of the latest ENTER at or before the candle; candle 0 is never searched |
| TradeLog.SaveSimTrades | chartmaster_helpers.go:392-442 | the rows of a candle, one for each action, with profit and fee of the exits |
| TradeLog.EntryPricePersists | chartmaster_helpers.go:400-421 | candles without an ENTER hand the entry price on |
| TradeLog.EntryPriceIs | chartmaster_helpers.go:400-421 | in any log the price is that of the last ENTER of the latest candle at or before that has one, candle 0 apart, and zero when there is none |
| Strat1.Globals.Renew | user_strats.go:51-69 | one call counts, or renews the parameters if the counter is full and the account flat |
| StrategyRuns.RunCounter | user_strats.go:51-69 | flag and counter after so many candles depend on the start alone, and a candle is due exactly when they say so |
| Renewals.CounterAt | user_strats.go:51-69 | the counter goes round once in twelve candles, the first call of a process apart |
| Renewals.RenewedEveryTwelfth | user_strats.go:51-69 | in every run the parameters change only while flat, and only on candles twelve apart |
| Renewals.DueFromStart | user_strats.go:14-18 | from the start of a process those are candles 1, 13, 25 and so on |
| Strat1.FindLatestActions | user_strats.go:184-194 | the actions of the latest earlier candle that has any |
| Strat1.FirePoints | user_strats.go:233-242 | the fired points are closed one by one, the last of the set also ends the trade |
| Strat1.ManagePosition | user_strats.go:204-247 | trades and account after an open position was managed |
| Strat1.EnterTrade | user_strats.go:342-359 | logging, buying and storing the record, empty or not |
| Strat1.SearchEntry | user_strats.go:248-361 | trades and account after looking for an entry while flat |
| Strat1.Trading | user_strats.go:199-361 | the cooldown gates and the two branches |
| Strat1.Strat1 | user_strats.go:20-373 | one call refines the step function on the whole state, its top label is the pivot high found, and it returns the number the list lengths give |
| Strat1.Number | user_strats.go:369-372 | the number returned lies between zero and twice the count asked for; it is the latter exactly after whole rounds of count + 1 highs, and otherwise the number of highs and of lows still missing until one more of each completes a round |
| Countdown.NumberIsMissing | user_strats.go:369-372 | there are numbers of highs and lows missing, and the number returned is their sum, no low counting as found while all highs are missing |
| Countdown.EveryPivotCountsDown | user_strats.go:369-372 | on the lists of every run, of either shape, each new pivot lowers the number by one, but a low leaves twice the count and turns zero into the count, the high that ends a round sets twice the count, and in the shared shape the first high of a round goes two down |
| Ladder.SingleTargetIsGood | user_strats.go:74-82 | the one-entry map strat1 passes satisfies what the ladder theorems ask of a take-profit map |
| Ladder.NewLadder | types.go:369-397 | a freshly bought ladder ascends in price, has orders 1 to n, nothing done, and covers the position |
| Ladder.CandleFires | user_func_helpers.go:205-270 | on one candle the undone points up to its high fire, in ascending order, and exactly they become done |
| Ladder.FiringCloses | user_strats.go:233-242 | firing them leaves the sum of the undone sizes as position and ends the trade exactly with the last point |
| OpenTrade.ManagedCloses | user_strats.go:220-225 | past its deadline or at its stop the whole position is closed and the broken record appended |
| OpenTrade.ManagedFires | user_strats.go:226-247 | otherwise the ladder fires, and the record and the account change together |
| OpenTrade.ManagedWaits | user_strats.go:226-247 | an entry without points is left alone |
| OpenTrade.ManyExits | user_strats.go:233-242 | any number of exits on one candle moves the balance by the net profit of their rows |
| StrategyRuns.FirstListedIff | user_strats.go:318-323 | on pivot lows as those of a run, the first low of the series is listed if and only if at least one low was asked for |
| StrategyRuns.NextIsSafeIff | user_strats.go:20-373 | after every run the next call reads only candles, pivots and trades that are there and divides no integer by zero, if and only if the count in force is not -1 and, when the call looks for an entry, at least one |
| NoLowsAsked.NoLowsPanics | user_strats.go:318-372 | from the start of a process, with a count of zero or less, the ninth call of a concrete market is not safe; with -1 the second is not |
| StrategyRuns.OpenIsManaged | user_strats.go:199-205 | with a position open no cooldown gate blocks: the candle is managed |
| StrategyRuns.TradeKeeps | user_strats.go:199-361 | the trading part of a candle leaves a flat account or a covered open trade and adds one entry or only exits to the log |
| StrategyRuns.LinkKeepsInv | user_strats.go:20-373 | every candle keeps the invariant of runs |
| StrategyRuns.RunKeepsInv | user_strats.go:20-373 | the invariant after every candle of every run |
| StrategyRuns.RunExists | user_strats.go:20-373 | when every answer on a due candle asks for at least one low, and so does the start or it is renewed in time, no run gets stuck: strat1 can be called on every candle |
| StrategyRuns.RunsAgree | user_strats.go:20-373 | a run is determined by its inputs: the run over more candles goes on from the run over fewer |
| TradeTheorems.PositionIsCovered | user_strats.go:342-358 | after every candle the position is not negative and, while open, equals the sum of the undone sizes of the last stored trade, the done flags forming a prefix |
| TradeTheorems.OpenCandle | user_strats.go:204-247 | while open no candle enters again, done flags only grow, and the position reaches zero exactly when the last point fires or a full close runs |
| TradeTheorems.RecordStays | user_strats.go:204-247 | deadline, stop and entry index of an open trade never change |
| TradeTheorems.ExitInTime | user_func_helpers.go:188-191 | a position entered on candle k with a deadline is flat again after candle max(k + 1, deadline) |
| TradeTheorems.EntryOnRuns | user_strats.go:342-359 | how runs enter: with stop and deadline when the pivot is confirmed, with the empty record otherwise |
| Cooldown.EntryRespectsCooldown | user_strats.go:253-270 | the pivot of every entry lies after the candle that closed the trade before it, and after a stop-loss by more than the cooldown in force: on the entry's candle, or, if a buy too small to make was stored in between, on the candle of that one |
| TradeTheorems.EmptyRecordStays | user_func_helpers.go:85-98 | a position entered with the empty record is never closed |
| TradeTheorems.OpenIffNotEnded | user_func_helpers.go:194-270 | a position without a deadline is still open exactly if no candle since the entry reached its stop or its last point |
| TradeTheorems.ClosedIffConfirmed | user_func_helpers.go:85-98 | a position with an unconfirmed pivot is never closed; a confirmed one with a deadline is closed within max(1, the maximum duration in force at entry) candles; one whose deadline index is zero exactly at its stop or last point |
| FallingMarket.FallingRun | strat_helpers.go:54-131 | the pivots of any falling market: a high every 51 candles, each low by timeout on the candle before the next high |
| FirstEntry.WaitsForLows | user_strats.go:199-252 | nothing is traded before the fourth pivot low, nor before as many as are asked for |
| FirstEntry.LinkEntersFirst | user_strats.go:248-359 | with nothing traded yet, a fourth low that closes a descending series is bought on |
| EntryDecision.LinkStoresIff | user_strats.go:199-361 | a flat call stores a record if and only if there are four lows and as many as asked for, the last that many descend in price, and the latest lies after the last break, by more than the cooldown if the last exit was a stop-loss; the gate in front never refuses more |
| EntryDecision.FirstEntryIff | user_strats.go:199-361 | over runs, before anything was stored: the same with no earlier exit |
| EntryDecision.EntersAgainIff | user_strats.go:199-361 | over runs, flat since candle x closed a trade: the same with candle x, and the cooldown in force if x reached the stop before the deadline; candle 0 counts instead of x once a buy has been refused |
| Entries.StoredRecordIs | user_func_helpers.go:75-181 | the record stored by every flat call: with a confirmed unused pivot the stop from the current close, the close and the deadline from the first candle above the pivot's high, and the empty record otherwise |
| Entries.CapitalIs | user_func_helpers.go:11-29 | the capital: the largest within leverage and risk, refused if the stop is above the close, or at it with a negative risk |
| Entries.FlatCallBuys | types.go:400-445 | over runs, a flat call that stores a record buys with that capital unless it is 10 or less: price 0.15 percent above the close, size after a fee of 0.075 percent, cash left, risked equity logged, total equity as it was |
| Entries.EntryKeepsEquity | types.go:413-415 | in every run total equity is the same after the candle of an entry as before |
| Entries.EntryPoints | types.go:369-397 | the take-profit points of every confirmed entry of a run: price, order and percentage of each target, sizes in proportion, the last the remainder; none if the first price is not positive |
| OpenCandles.OpenCandleSells | user_strats.go:204-247 | in every run a candle of an open trade sells, at 0.15 percent below and with a fee of 0.075 percent, everything at the close past the deadline, else everything at the stop if reached, else the points its high reaches, and leaves cash, position, equity and log accordingly |
| OpenCandles.EquityWhileOpen | types.go:528-534 | while open, and on the candle that closes, total equity is that of the entry until something is sold, and then cash plus the rest of the position at the price of the latest sale |
| OpenCandles.OpenCandleRecords | user_strats.go:220-247 | and the stored records: points reached are marked done, an ended trade is appended with its candle and the name of its end; it stays open exactly if nothing is appended |
| TradeRows.RowsWhileFlat | chartmaster_helpers.go:430-436 | over runs, the rows of a flat candle: none, or the entry with its price and size, the fee 0.075 percent of the capital and the risked equity the risk percentage of the cash left |
| TradeRows.RowsWhileOpen | chartmaster_helpers.go:397-429 | over runs, the rows of a candle of an open trade: one for each sale, with the profit over the price paid at the entry and the fee of the sale |
| TradeRows.EntryPriceWhileOpen | chartmaster_helpers.go:400-421 | the price found for an exit is 0.15 percent above the close of the candle of entry |
| UnsoldRun.FallingMarketIsNeverSold | user_func_helpers.go:85-98 | in a falling market, unless more than four lows are asked for, strat1 buys on candle 204 without stop or deadline and never sells, however long the run |
| UnsoldRun.UnsoldRunExists | user_func_helpers.go:85-98 | such a run exists from the start of a process, with concrete prices, equity, risk and leverage |
| Accounting.TradeBalances | chartmaster_helpers.go:392-442 | one candle's trading moves the balance by the net of its rows, none of which is dropped |
| Accounting.RunBalances | types.go:403-553 | after every candle of every run cash plus position at entry price equals the initial equity plus the net of all rows so far |
| Accounting.FlatEquityIsTheLog | chartmaster_helpers.go:392-442 | whenever a run is flat, total equity less the initial size is exactly the sum of Profit - TotalFees over all exit rows |
| LossBound.CapIsLargest | user_func_helpers.go:11-29 | the capital committed is the largest within the leverage whose loss at the stop stays within the risk, and the size is that capital at the entry price; a stop above the price is refused, and one at it if the risk is negative |
| LossBound.CapBounds | user_func_helpers.go:11-29 | the capital committed is within the leverage and its loss at the stop within the risk |
| LossBound.TradeLossBounded | types.go:404-415 | a trade fully exited at or above its stop, on whatever candles, loses at most (1-f)(k r + (1-k) L) of the equity at entry |
| LossBound.BoundIsReached | types.go:404-415 | at whatever fees and slippage, a stop-out with the stop r / L below the price loses exactly that fraction |
| LossBound.SeriesLossBounded | types.go:523-535 | with that fraction q below 1, equity after n such trades is at least initial (1-q)^n |
| RunLoss.ManagedSettles | user_strats.go:204-247 | what a candle does to the account of an open trade is to sell: everything at the deadline's close or the stop, or the points it reaches |
| RunLoss.ClosedTradeIsDeal | user_strats.go:204-359 | every trade a run has closed is a deal: what Buy was called with, and the exits of its candles |
| RunLoss.ClosedTradeLoss | types.go:522-553 | such a trade of a run loses at most the bound of the equity it started with |
| RunLoss.RunLossBounded | types.go:522-553 | a run that sold nothing below a stop has at least initial (1-q)^entries whenever it is flat |
| ExitsAtStop.ExitsAtStopIff | user_func_helpers.go:139-163 | a closed trade sells nothing below its stop if and only if its last close, when past the deadline, is not below the stop, and its first take-profit price is not, unless there is none or the first candle closes the trade |
| ExitsAtStop.RunSellsAboveIff | user_func_helpers.go:188-270 | a flat run has sold nothing below a stop if and only if each of its trades meets that condition |
| ExitsAtStop.KeptStopsBoundTheLoss | types.go:522-553 | and then it has at least initial (1-q)^entries |
| ZigZag.TurningRun | strat_helpers.go:71-181 | in a market that turns on every candle each candle but the last is a pivot |
| DeadlineLoss.DeadlineSellsBelowStop | user_func_helpers.go:188-191 | a run whose deadline sells at 1 with the stop at 95.04 and takes all the equity, where the bound is below a tenth |
| DeadlineLoss.CrashExists | user_func_helpers.go:188-191 | that run exists from the start of a process |
| TargetLoss.TargetSellsBelowStop | user_func_helpers.go:139-163 | a run whose target sells at 81.7075 with the stop at 98.01, before any deadline, and takes more than a third of the equity |
| TargetLoss.GapExists | user_func_helpers.go:139-163 | that run exists from the start of a process |
| Scan.TimeOK | user_scans.go:112-153 | true exactly inside one of the trade windows, or when there are none |
| Scan.WatchTrend | user_scans.go:68-94 | points and flag after a watched trend was checked |
| Scan.SearchTrend | user_scans.go:95-182 | points and flag after looking for a trend to watch |
| Scan.ScanPivotTrends | user_scans.go:10-189 | one call refines the step function on the whole store and returns the record of the trend that ended |
| ScanRuns.TrendKeepsInv | user_scans.go:62-182 | every candle keeps records in pairs of start and end with increasing indices |
| ScanRuns.TrendsNeverOverlap | user_scans.go:62-90 | in every scan each trend ends after its own start, and the next starts more than the cooldown after that end |
| ScanRuns.WatchEndsIffConfirmed | user_scans.go:68-94 | a trend is watched for at most 300 candles when its pivot was confirmed, and for ever otherwise |
| ScanDecision.EveryScanCandle | user_scans.go:62-182 | every candle of every scan: an unwatched one starts a trend if and only if there are four lows, the last three descend, the latest is more than 35 after the last break and opens between 06:36 and 07:48 or 08:24 and 09:00, and then records the stop at 0.98 of its close and the deadline and target of the confirming candle; a watched trend ends at the deadline or the stop, never at its target |
| ScanDecision.WatchedIffNotEnded | user_scans.go:68-94 | a trend is still watched if and only if no candle since its start reached deadline or stop, and only the target of its record changes |
| ScanReplay.ScanExists | user_scans.go:10-189 | no scan gets stuck: on all candles there is one |
| ScanReplay.ScanPass | chartmaster_helpers.go:1124-1215 | a pass moves the cursor as specified and makes the scan one over exactly the candles the cursor has taken |
| ScanReplay.ComputeScan | chartmaster_helpers.go:1091-1234 | the loop over whatever the channel delivers performs a scan over the candles replayed, and the records it leaves never overlap |
| ChunkGaps.CatchUp | chartmaster_helpers.go:599-626 | the inner loop reports the minutes before a candle, leaves the cursor one minute behind and terminates |
| ChunkGaps.ReportTail | chartmaster_helpers.go:629-643 | the tail loop reports the minutes up to the window's end and the one past it, and terminates |
| ChunkGaps.ReportGaps | chartmaster_helpers.go:588-648 | all reports of a chunk, in order: every minute from the first absent one on |
| ChunkGaps.SilentIffComplete | chartmaster_helpers.go:588-648 | nothing is reported exactly when no minute is absent |
| ChunkGaps.AbsentIsReported | chartmaster_helpers.go:588-648 | every absent minute is reported, and the reports are consecutive minutes |
| ChunkGaps.OnlyAbsentIff | chartmaster_helpers.go:619-645 | judged by the chunk's own candles, no present minute is reported exactly when no candle follows the first gap, or just that of the last minute |
| RangeReports.ReportsPastEnd | chartmaster_helpers.go:629-643 | past its window a chunk reports the next minute exactly if it holds a candle but not that of its last minute; an empty one reports up to a full chunk |
| RangeReports.ReportsAbsentOnlyIff | chartmaster_helpers.go:588-648 | the reports of a range name minutes without a candle only if and only if each chunk has no candle after its first gap and is empty or complete or followed by an absent minute, or just the candle of its last minute after it |
| RangeReports.HeardAbsentOnlyIff | chartmaster_helpers.go:948-952 | under the same condition, and no other, no interleaving ever remembers a minute that has a candle as missing |
| RangeReports.NextWindowReported | chartmaster_helpers.go:629-643 | two chunks, each reporting only minutes absent from itself, of which the first reports a minute the second holds |
| ChunkGaps.PresentMinuteReported | chartmaster_helpers.go:619-645 | a chunk of three candles with one gap, whose second candle is reported |
| ChunkGaps.CompleteIsEveryMinute | chartmaster_helpers.go:588-648 | a chunk without an absent minute is one candle for each minute of its window |
| Replay.Backtester.SkipMissing | chartmaster_helpers.go:1046-1068 | where the walk over reported minutes leaves the cursor and whether the pass is abandoned |
| Replay.Backtester.WalkToEnd | chartmaster_helpers.go:1071-1079 | a cursor before the end time is walked to it |
| Replay.Backtester.AtCandle | chartmaster_helpers.go:971-1081 | what one candle of a pass does to the cursor, and whether the pass is abandoned |
| Replay.Backtester.Receive | chartmaster_helpers.go:948-1081 | one message and one pass over the arrived candles refine the cursor specification |
| Replay.PassKeepsOrder | chartmaster_helpers.go:959-1081 | whatever has arrived or been reported, a pass only appends arrived candles, strictly later than all before |
| Replay.PassTakesAll | chartmaster_helpers.go:959-1021 | candles for every minute from the cursor on are all replayed |
| Replay.SkipGapWaits | chartmaster_helpers.go:1046-1068 | the walk over reported minutes from a reported minute before the candle: abandoned, it stands on the first reported minute whose successor is not reported; completed, all minutes before the candle are reported and it stands just after the candle's |
| Replay.AtBarBefore | chartmaster_helpers.go:1046-1081 | what a candle after the cursor does to it, in the same terms |
| Replay.AtBarAfter | chartmaster_helpers.go:971-1081 | what a candle at or before the cursor does to it |
| Replay.GapEndIsSteppedOver | chartmaster_helpers.go:1055-1058 | a cursor at the start of a fully reported gap is moved past the candle that ends it |
| GapReplay.AbsentHasReport | chartmaster_helpers.go:588-648 | every absent minute of a range is reported by some chunk |
| GapReplay.LosesAfterGaps | chartmaster_helpers.go:948-1086 | some interleaving finishes and loses each candle that follows a gap |
| GapReplay.ReplayedIffNoGapFollowed | chartmaster_helpers.go:948-1086 | every finished interleaving replays all candles held exactly when no candle is held for a minute after an absent one |
| GapReplay.LaterWindowsLost | chartmaster_helpers.go:1071-1084 | two reports of the second window can end the replay with only the first window replayed |
| GapReplay.LastCandleLost | chartmaster_helpers.go:1071-1084 | a concrete range on which an interleaving of a few steps finishes without the last candle |
| GapReplay.WaitsOnLastReported | chartmaster_helpers.go:1061-1066 | a concrete range in which the cursor waits on a reported minute that has a candle, and the replay goes on from that minute when its candle arrives |
| Pipeline.CutWindows | chartmaster_helpers.go:788-811 | the loop starts one goroutine for each window of the partition |
| Pipeline.WindowsPartition | chartmaster_helpers.go:788-811 | the windows cut [start, end) into non-empty pieces of 100 periods, end to end, of which only the last may be shorter |
| Pipeline.ReplayInOrder | chartmaster_helpers.go:948-1086 | in every interleaving the replayed candles are strictly increasing in time, come from the chunks and are never taken back |
| Pipeline.FullReplay | chartmaster_helpers.go:948-1086 | for a range without gaps, whatever the completion order, exactly the candle of every minute is replayed, ending at the end time |
| Pipeline.NeverStuck | chartmaster_helpers.go:815-820 | until such a replay is done some step is possible |
| Pipeline.ReplayFinishes | chartmaster_helpers.go:815-820 | and every interleaving ends, done, after the number of chunks plus three steps |
| Finishing.PassReachesLast | chartmaster_helpers.go:1046-1068 | once all absent minutes are reported, a pass over all candles takes the cursor past the last one |
| Finishing.EveryReplayFinishes | chartmaster_helpers.go:948-1086 | with any candle held, gaps or not, every interleaving is of bounded length, never gets stuck, and one that cannot go on is done |
| Finishing.NeverFinishes | chartmaster_helpers.go:948-1086 | with none held there are interleavings of any length, none of them ever done |
| Finishing.FinishesIff | chartmaster_helpers.go:948-1086 | the interleavings of a range are bounded if and only if a candle of it is held or it is empty |
| Backtest.CallStrategy | chartmaster_helpers.go:986 | the strategy call is one step of the run |
| Backtest.SaveDisplay | chartmaster_helpers.go:992-1010 | the rows kept and the labels of the candle |
| Backtest.Session.Next | chartmaster_helpers.go:971-1021 | one replayed candle makes the run one longer and keeps arrays, rows, labels and indicators those of the run |
| RangeBacktest.ReplayPass | chartmaster_helpers.go:959-1081 | a pass moves the cursor as specified and makes the run one over exactly the candles the cursor has taken |
| RangeBacktest.ComputeBacktest | chartmaster_helpers.go:912-1091 | the loop over whatever the channel delivers stops at the first pass that leaves the cursor at the end time or walking for ever, and performs a run over the candles replayed: its rows are those of the run, flat equity is accounted for by them, indicators are right at every candle, "H" is on exactly the pivot highs |
| Deliveries.FetchDelivers | chartmaster_helpers.go:948-1086 | every interleaving of the fetch delivers such messages and arrivals, and the cursor the loop makes of them is that of the interleaving |
| RangeBacktest.ReplayRuns | chartmaster_helpers.go:959-1021 | at every point of every interleaving strat1 has a run over the candles replayed so far, and its beginning is the one run over those of every earlier point |
| RangeBacktest.FullRangeRun | chartmaster_helpers.go:948-1086 | in a range without gaps a finished replay has emitted exactly the candle of every minute, and strat1 has a run over them |
| RangeBacktest.OrderDoesNotMatter | chartmaster_helpers.go:948-1086 | any two finished interleavings of such a range give the same run, whatever order the chunks arrived in |
| Indicators.CalcSmas | chartmaster_helpers.go:465-494 | the single pass yields, for each period up to the number of candles, the average of that many latest closes, never out of bounds |
| Indicators.SmasAre | chartmaster_helpers.go:450-494 | those are the averages of the last 10, 21, 50 and 200 closes, as many as there are closes for |
| Indicators.Emas.CalcEmas | chartmaster_helpers.go:496-513 | over consecutive calls from index 0, whatever the global held before, each value is the exponential average of all closes so far and every index is in range |
| Indicators.EmaWithin | chartmaster_helpers.go:496-513 | an exponential average lies within any bounds of the closes so far, hence between their minimum and maximum |
| Indicators.EmaApproaches | chartmaster_helpers.go:496-513 | n more closes at x leave ((p-1)/(p+1))^n of the distance between the average and x |
| Indicators.EmasAre | chartmaster_helpers.go:452-513 | the exponential averages are those of periods 21, 55, 200 and 377, each from that many closes on |
| Indicators.CalcVolumes | chartmaster_helpers.go:515-527 | the volume averages, which leave the current candle out |
| Indicators.VolumesAre | chartmaster_helpers.go:453-527 | those are the averages over the 10, 21 and 55 candles before the last one |
| Indicators.VolumeReadsAreSafe | user_strats.go:39-49 | every volume average strat1 reads is there |
| CalendarRanges.AddNewRange | chartmaster_helpers.go:144-181 | the loop over the stored ranges computes the merged calendar |
| CalendarRanges.CoverageIsExact | chartmaster_helpers.go:144-181 | inserting a range into interior-disjoint ranges covers exactly the old coverage and the new range |
| CalendarRanges.DisjointIffNoClash | chartmaster_helpers.go:144-181 | the ranges stay disjoint exactly when no stored range inside the new one shares an endpoint with it |
| CalendarRanges.SharedEndpointOverlaps | chartmaster_helpers.go:144-181 | two ranges for which they do not |
| CalendarRanges.InsertsKeepCalendar | chartmaster_helpers.go:144-181 | over any sequence of inserts without such a clash the ranges stay disjoint and cover exactly the union |
| SavedCandles.SplitUndoesJoin | chartmaster_helpers.go:844-846 | splitting undoes joining when no part holds the separator |
| SavedCandles.PrintedFloatReads | chartmaster_helpers.go:851-855 | every number reads back as its value rounded to six decimals |
| SavedCandles.PrintedExamples | chartmaster_helpers.go:1583-1593 | three numbers as they are printed, one of them rounded |
| SavedCandles.RoundedIsClose | chartmaster_helpers.go:851-855 | what is read back lies within half a millionth of what was printed |
| SavedCandles.JunkReadsZero | chartmaster_helpers.go:851-855 | a text with a character other than digits, point and leading minus reads as zero |
| SavedCandles.LineIs | chartmaster_helpers.go:1583-1593 | a candle is saved as its four times and five numbers, in this order, separated by strokes |
| SavedCandles.TextGrows | chartmaster_helpers.go:1583-1593 | candles are separated by angle brackets, with none before the first |
| SavedCandles.TextReads | chartmaster_helpers.go:844-857 | a saved non-empty list with clean time strings reads back as the same candles, numbers rounded to six decimals |
| SavedCandles.RoundTripIff | chartmaster_helpers.go:844-857 | the round trip is exact if and only if the list is not empty, no time string holds a separator and no number has more than six decimals |
| SavedCandles.EmptyListFails | chartmaster_helpers.go:844-857 | the empty list is saved as the empty text, on which the reader indexes out of range |
| SavedCandles.CandlePeriodResFile | chartmaster_helpers.go:1583-1593 | the loop prints fields separated by "/" and candles separated by ">" |
| SavedCandles.RetrieveCandles | chartmaster_helpers.go:844-857 | the loop reads the candles of any text, or stops at the first with fewer than nine fields |

## Left out

- EntryLog.LogEntry: the entry time, the pivot statistics and the middle label are not modelled; they steer nothing.
- TradeLog.SaveSimTrades: times, raw profit percentage, direction and settings of the rows are not modelled.
- Strat1.ManagePosition: the record is broken with index and action only; the statistics breakTrend adds are those of Statistics.BreakTrend, its times, labels and trailing figures are not modelled.
- Strat1.Strat1: middle and bottom labels and the settings map are not modelled.
- Scan.WatchTrend: the closing statistics of the recorded trend are not modelled.
- Scan.ScanPivotTrends: labels and statistics of the returned record are not modelled.
- ScanReplay.ComputeScan: the result list that is filtered by growth, indicators and display data are not modelled.
- Statistics.BreakTrend: break time, extent time and the two middle labels are not modelled.
- Backtest.SaveDisplay: the profit curve, the labels other than the top ones and the display fields are not modelled.
- RangeBacktest.ComputeBacktest: is given what its receives yield as a list, and so is ComputeScan; that every interleaving of the fetch yields such a list is FetchDelivers. The profit curve, the settings and the display fields other than averages and top labels are not modelled.
- Floating point: prices are reals, so rounding, NaN and infinities are not modelled. Where `calcEntry` divides by zero the model takes the leverage limit in place of plus infinity and a refusal in place of minus infinity; the NaN of a zero share of equity is not modelled.
- `sort.Slice` and `strings.Split` are taken as library calls that return what they promise; `strconv.ParseFloat` is modelled on plain decimal notation, anything else reading as zero, `fmt.Sprintf("%f")` as rounding to six decimals, and the JSON quoting around the saved text as the identity.
- Counts, durations and percentages from `machineLearningModel` are arbitrary; the take-profit map may be any ascending ladder with positive percentages, of which the single target of `strat1` is one. Closing prices are positive; divisions by a low are not guarded, since lows are arbitrary.
- Runs are those of `computeBacktest` and `computeScan`, where the index of the current candle is always the last one; the live bot, in which it can drift, is not modelled.
- The volatility figures of `calcIndicators`, which need square roots and feed the machine-learning call only.
- Pipeline.Next: a slice is handed over in one atomic step and read as a snapshot; the data race on the slice header in the Go code is not modelled. A message on the unbuffered channel is one step of sender and receiver together.
- The cached-or-fetched mode on one-minute candles is modelled; other periods, the mode that replays from storage (whose cursor can move backwards), `getChunkCandleDataOne` and the contents of cache and exchange are not.
- TrendBreak.CheckSplits: stated up to the deadline, since an expired record returns its deadline event without looking at earlier candles.
- HTTP handlers, websockets, Redis, Datastore, Cloud Storage, the exchange and market-data calls, logging and file writes.
- Sagas and stream listening, whose protocol lives in libraries that are not part of this model.
- The live-trading branches of `Buy` and `CloseLong`, and short positions beyond the size `Buy` stores.
- Random generators and progress bars.
