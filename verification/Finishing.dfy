/** Which replays finish: with any candle held every interleaving of Pipeline ends, and ends done; with
    none the closed channel keeps the loop going for ever. */
module Finishing {
  import opened ChunkGaps
  import opened Replay
  import opened Pipeline
  import opened GapReplay

  // ---------- the cursor ----------

  /** A pass that starts before the end time never gets stuck and stays in the range. */
  lemma {:induction false} PassStaysInRange(c: Cursor, bars: seq<Bar>, startTime: int, n: nat, empties: set<int>,
                                            endTime: int)
    requires Spread(bars, startTime, endTime) && n <= |bars| && !c.stuck
    requires startTime <= c.required <= endTime && (n < |bars| ==> c.required < endTime)
    ensures var r := Pass(c, bars, n, empties, endTime); !r.stuck && c.required <= r.required <= endTime
    decreases |bars| - n
  {
    if n == |bars| {
    } else {
      var last := bars[|bars| - 1];
      assert n + 1 < |bars| ==> bars[n].start < bars[n + 1].start && bars[n].start < last.start;
      if c.required in empties && c.required < bars[n].start {
        SkipStops(c.required, bars[n].start, empties);
      }
      var r := AtBar(c, bars[n], last, empties, endTime);
      if !r.1 {
        PassStaysInRange(r.0, bars, startTime, n + 1, empties, endTime);
      }
    }
  }

  lemma {:induction false} SkipStops(required: int, start: int, empties: set<int>)
    requires required < start
    ensures required <= SkipGap(required, start, empties).0 <= start + 1
    ensures SkipGap(required, start, empties).1 ==> SkipGap(required, start, empties).0 < start
    decreases start - required
  {
    if required + 1 == start || required + 1 !in empties {
    } else {
      SkipStops(required + 1, start, empties);
    }
  }

  /** With every absent minute reported, a pass over all candles takes a cursor up to the last candle past it. */
  lemma {:induction false} PassReachesLast(c: Cursor, bars: seq<Bar>, startTime: int, endTime: int, n: nat,
                                           empties: set<int>)
    requires Spread(bars, startTime, endTime) && AllAbsentIn(empties, bars, startTime, endTime) && n < |bars|
    requires startTime <= c.required <= bars[|bars| - 1].start && (n > 0 ==> bars[n - 1].start < c.required)
    ensures Pass(c, bars, n, empties, endTime).required == bars[|bars| - 1].start + 1
    decreases |bars| - n
  {
    var last := bars[|bars| - 1];
    assert n + 1 < |bars| ==> bars[n].start < bars[n + 1].start && bars[n].start < last.start;
    if c.required < bars[n].start {
      forall t | c.required <= t < bars[n].start ensures t in empties {
        BetweenIsAbsent(bars, startTime, endTime, n, t);
      }
      GapEndIsSteppedOver(c, bars[n], last, empties, endTime);
    }
    var r := AtBar(c, bars[n], last, empties, endTime);
    if n + 1 == |bars| {
    } else {
      PassReachesLast(r.0, bars, startTime, endTime, n + 1, empties);
    }
  }

  /** The candles that have arrived are spread over the range like all of them. */
  lemma {:induction false} ArrivedSpread(chunks: seq<Chunk>, routines: seq<Routine>, startTime: int, endTime: int,
                                         k: nat)
    requires Held(chunks, startTime, endTime) && k <= |chunks| == |routines|
    ensures var e := if k == 0 then startTime else Windows(startTime, endTime, CHUNK_SIZE)[k - 1].e;
            Spread(Arrived(chunks[..k], routines[..k]), startTime, e) && startTime <= e <= endTime
  {
    WindowsPartition(startTime, endTime, CHUNK_SIZE);
    if k == 0 {
    } else {
      ArrivedSpread(chunks, routines, startTime, endTime, k - 1);
      WindowEnds(startTime, endTime, k - 1);
      assert chunks[..k][..k - 1] == chunks[..k - 1] && routines[..k][..k - 1] == routines[..k - 1];
      var c, w := chunks[k - 1], Windows(startTime, endTime, CHUNK_SIZE)[k - 1];
      assert HeldChunk(c, w);
      SpreadJoins(Arrived(chunks[..k - 1], routines[..k - 1]), if routines[k - 1].written then c.bars else [],
                  startTime, w.s, w.e);
    }
  }

  lemma {:induction false} AllArrivedSpread(chunks: seq<Chunk>, routines: seq<Routine>, startTime: int, endTime: int)
    requires Held(chunks, startTime, endTime) && |chunks| == |routines|
    ensures Spread(Arrived(chunks, routines), startTime, endTime)
  {
    ArrivedSpread(chunks, routines, startTime, endTime, |chunks|);
    assert chunks[..|chunks|] == chunks && routines[..|routines|] == routines;
  }

  // ---------- what every step keeps ----------

  /** Routine k has sent no more than its reports, all before handing over, and what it sent was received. */
  ghost predicate RoutineOk(chunks: seq<Chunk>, s: Sys, k: nat)
    requires k < |chunks| == |s.routines|
  {
    var r, reports := s.routines[k], ReportsOf(chunks[k]);
    && r.sent <= |reports| && (r.written ==> r.sent == |reports|)
    && forall j :: 0 <= j < r.sent ==> reports[j] in s.empties
  }

  ghost predicate Going(chunks: seq<Chunk>, startTime: int, endTime: int, s: Sys) {
    && |s.routines| == |chunks|
    && (forall k :: 0 <= k < |chunks| ==> RoutineOk(chunks, s, k))
    && (s.closed ==> AllWritten(s)) && (s.pending ==> !s.done)
    && !s.cursor.stuck && startTime <= s.cursor.required <= endTime
    && (s.done ==> s.cursor.required == endTime)
    && (s.cursor.required == endTime && startTime < endTime ==> s.done)
  }

  lemma {:induction false} StepGoing(chunks: seq<Chunk>, startTime: int, endTime: int, zeroTime: int, s: Sys,
                                     step: Step)
    requires Held(chunks, startTime, endTime) && Going(chunks, startTime, endTime, s) && Enabled(chunks, s, step)
    ensures Going(chunks, startTime, endTime, Next(chunks, endTime, zeroTime, s, step))
  {
    hide Held, ReportsOf;
    var s' := Next(chunks, endTime, zeroTime, s, step);
    forall k | 0 <= k < |chunks| ensures RoutineOk(chunks, s', k) {
      assert RoutineOk(chunks, s, k);
    }
    if step.RunPass? {
      var arrived := Arrived(chunks, s.routines);
      AllArrivedSpread(chunks, s.routines, startTime, endTime);
      PassStaysInRange(s.cursor, arrived, startTime, 0, s.empties, endTime);
    }
  }

  lemma {:induction false} ExecutionGoing(chunks: seq<Chunk>, startTime: int, endTime: int, zeroTime: int,
                                          ss: seq<Sys>, steps: seq<Step>, n: nat)
    requires Held(chunks, startTime, endTime)
    requires IsExecution(chunks, startTime, endTime, zeroTime, ss, steps) && n < |ss|
    ensures Going(chunks, startTime, endTime, ss[n])
  {
    hide Going, Next, Enabled;
    if n == 0 {
      StartGoing(chunks, startTime, endTime);
    } else {
      ExecutionGoing(chunks, startTime, endTime, zeroTime, ss, steps, n - 1);
      assert Taken(chunks, endTime, zeroTime, ss, steps, n - 1);
      StepGoing(chunks, startTime, endTime, zeroTime, ss[n - 1], steps[n - 1]);
    }
  }

  lemma {:induction false} StartGoing(chunks: seq<Chunk>, startTime: int, endTime: int)
    requires startTime <= endTime
    ensures Going(chunks, startTime, endTime, Start(chunks, startTime))
  {
  }

  /** Until the replay is done some step can be taken. */
  lemma {:induction false} SomeStep(chunks: seq<Chunk>, startTime: int, endTime: int, s: Sys) returns (step: Step)
    requires Going(chunks, startTime, endTime, s) && !s.done
    ensures Enabled(chunks, s, step)
  {
    if s.pending {
      step := RunPass;
    } else if !AllWritten(s) {
      var k :| 0 <= k < |s.routines| && !s.routines[k].written;
      assert RoutineOk(chunks, s, k);
      step := if s.routines[k].sent == |ReportsOf(chunks[k])| then Write(k) else Send(k);
    } else {
      step := if s.closed then ReceiveClosed else Close;
    }
  }

  // ---------- counting down ----------

  /** Reports still to be received. */
  ghost function Unsent(chunks: seq<Chunk>, routines: seq<Routine>): int
    requires |chunks| == |routines|
  {
    if |chunks| == 0 then 0
    else
      var n := |chunks| - 1;
      Unsent(chunks[..n], routines[..n]) + |ReportsOf(chunks[n])| - routines[n].sent
  }

  lemma {:induction false} SendOne(chunks: seq<Chunk>, routines: seq<Routine>, k: nat)
    requires k < |routines| == |chunks|
    ensures Unsent(chunks, routines[k := routines[k].(sent := routines[k].sent + 1)]) == Unsent(chunks, routines) - 1
  {
    var n, rs := |routines| - 1, routines[k := routines[k].(sent := routines[k].sent + 1)];
    if k == n {
      assert rs[..n] == routines[..n];
    } else {
      SendOne(chunks[..n], routines[..n], k);
      assert rs[..n] == routines[..n][k := routines[k].(sent := routines[k].sent + 1)];
    }
  }

  lemma {:induction false} SameUnsent(chunks: seq<Chunk>, routines: seq<Routine>, others: seq<Routine>)
    requires |routines| == |others| == |chunks|
    requires forall k :: 0 <= k < |routines| ==> routines[k].sent == others[k].sent
    ensures Unsent(chunks, routines) == Unsent(chunks, others)
  {
    if |chunks| == 0 {
    } else {
      var n := |chunks| - 1;
      SameUnsent(chunks[..n], routines[..n], others[..n]);
    }
  }

  lemma {:induction false} UnsentNatural(chunks: seq<Chunk>, routines: seq<Routine>)
    requires |routines| == |chunks| && forall k :: 0 <= k < |routines| ==> routines[k].sent <= |ReportsOf(chunks[k])|
    ensures Unsent(chunks, routines) >= 0
  {
    if |chunks| == 0 {
    } else {
      var n := |chunks| - 1;
      UnsentNatural(chunks[..n], routines[..n]);
    }
  }

  /** Passes needed once everything has arrived: past the last candle, then to the end time. */
  ghost function PassesLeft(bars: seq<Bar>, s: Sys): nat {
    if s.done then 0
    else if |bars| == 0 || s.cursor.required > bars[|bars| - 1].start then 1
    else 2
  }

  /** A bound on the steps still to come. */
  ghost function Left(chunks: seq<Chunk>, s: Sys): int
    requires |chunks| == |s.routines|
  {
    if s.closed then 2 * PassesLeft(AllBars(chunks), s) - (if s.pending then 1 else 0)
    else 2 * Unsent(chunks, s.routines) + Unwritten(s.routines) + 5 + if s.pending then 1 else 0
  }

  /** Once the channel is closed all absent minutes have been reported. */
  lemma {:induction false} ClosedKnowsAbsent(chunks: seq<Chunk>, startTime: int, endTime: int, s: Sys)
    requires Held(chunks, startTime, endTime) && Going(chunks, startTime, endTime, s) && s.closed
    ensures AllAbsentIn(s.empties, AllBars(chunks), startTime, endTime)
  {
    hide Held, ReportsOf, AllBars;
    forall t | startTime <= t < endTime && !Present(AllBars(chunks), t) ensures t in s.empties {
      var k := AbsentHasReport(chunks, startTime, endTime, t);
      assert RoutineOk(chunks, s, k);
    }
  }

  /** A candle is held, or there is no minute to replay. */
  ghost predicate Finite(chunks: seq<Chunk>, startTime: int, endTime: int) {
    |AllBars(chunks)| > 0 || startTime == endTime
  }

  lemma {:induction false} PassCountsDown(chunks: seq<Chunk>, startTime: int, endTime: int, zeroTime: int, s: Sys)
    requires Held(chunks, startTime, endTime) && Finite(chunks, startTime, endTime)
    requires Going(chunks, startTime, endTime, s) && s.closed && s.pending
    ensures PassesLeft(AllBars(chunks), Next(chunks, endTime, zeroTime, s, RunPass)) < PassesLeft(AllBars(chunks), s)
  {
    hide Held, Going, AllAbsentIn, Pass;
    var bars, c := AllBars(chunks), s.cursor;
    assert |s.routines| == |chunks| && AllWritten(s) && !s.done && startTime <= c.required <= endTime && !c.stuck
           && (startTime < endTime ==> c.required < endTime) by { GoingUnfolds(chunks, startTime, endTime, s); }
    ArrivedAll(chunks, s.routines);
    AllBarsSpread(chunks, startTime, endTime);
    ClosedKnowsAbsent(chunks, startTime, endTime, s);
    assert |bars| > 0 ==> startTime <= bars[0].start < endTime;
    PassStaysInRange(c, bars, startTime, 0, s.empties, endTime);
    if |bars| == 0 {
      EmptyPass(c, s.empties, endTime);
      assert bars == [];
    } else if c.required > bars[|bars| - 1].start {
      PastLast(c, bars, startTime, endTime, 0, s.empties);
    } else {
      PassReachesLast(c, bars, startTime, endTime, 0, s.empties);
    }
  }

  lemma {:induction false} EmptyPass(c: Cursor, empties: set<int>, endTime: int)
    ensures Pass(c, [], 0, empties, endTime) == c
  {
  }

  lemma {:induction false} GoingUnfolds(chunks: seq<Chunk>, startTime: int, endTime: int, s: Sys)
    requires Going(chunks, startTime, endTime, s) && s.closed && s.pending
    ensures |s.routines| == |chunks| && AllWritten(s) && !s.done && startTime <= s.cursor.required <= endTime
    ensures !s.cursor.stuck
    ensures startTime < endTime ==> s.cursor.required < endTime
  {
  }

  /** A cursor past the last candle is walked to the end. */
  lemma {:induction false} PastLast(c: Cursor, bars: seq<Bar>, startTime: int, endTime: int, n: nat, empties: set<int>)
    requires Spread(bars, startTime, endTime) && AllAbsentIn(empties, bars, startTime, endTime) && n < |bars|
    requires bars[|bars| - 1].start < c.required < endTime && startTime <= c.required
    ensures Pass(c, bars, n, empties, endTime) == c.(required := endTime)
    decreases |bars| - n
  {
    var last := |bars| - 1;
    BetweenIsAbsent(bars, startTime, endTime, |bars|, c.required);
    assert n < last ==> bars[n].start < bars[last].start;
    if n == last {
    } else {
      PastLast(c, bars, startTime, endTime, n + 1, empties);
    }
  }

  lemma {:induction false} StepCountsDown(chunks: seq<Chunk>, startTime: int, endTime: int, zeroTime: int, s: Sys,
                                          step: Step)
    requires Held(chunks, startTime, endTime) && Finite(chunks, startTime, endTime)
    requires Going(chunks, startTime, endTime, s) && Enabled(chunks, s, step)
    ensures Left(chunks, Next(chunks, endTime, zeroTime, s, step)) < Left(chunks, s)
  {
    hide Held, Pass, AllBars, RoutineOk, ReportsOf, AllAbsentIn;
    var s' := Next(chunks, endTime, zeroTime, s, step);
    match step
    case Send(k) =>
      assert !s.closed by { SentBeforeClosed(chunks, startTime, endTime, s, k); }
      SendOne(chunks, s.routines, k);
      SameUnwritten(s.routines, s'.routines);
    case Write(k) =>
      WriteOne(s.routines, k);
      SameUnsent(chunks, s.routines, s'.routines);
    case Close =>
      AllSent(chunks, startTime, endTime, s);
      NoneUnwritten(s.routines);
    case ReceiveClosed =>
    case RunPass =>
      if s.closed {
        PassCountsDown(chunks, startTime, endTime, zeroTime, s);
      }
  }

  lemma {:induction false} SentBeforeClosed(chunks: seq<Chunk>, startTime: int, endTime: int, s: Sys, k: nat)
    requires Going(chunks, startTime, endTime, s) && Enabled(chunks, s, Send(k))
    ensures !s.closed
  {
    assert RoutineOk(chunks, s, k);
  }

  lemma {:induction false} AllSent(chunks: seq<Chunk>, startTime: int, endTime: int, s: Sys)
    requires Going(chunks, startTime, endTime, s)
    ensures Unsent(chunks, s.routines) >= 0
  {
    forall k | 0 <= k < |chunks| ensures s.routines[k].sent <= |ReportsOf(chunks[k])| {
      assert RoutineOk(chunks, s, k);
    }
    UnsentNatural(chunks, s.routines);
  }

  lemma {:induction false} SameUnwritten(routines: seq<Routine>, others: seq<Routine>)
    requires |routines| == |others| && forall k :: 0 <= k < |routines| ==> routines[k].written == others[k].written
    ensures Unwritten(routines) == Unwritten(others)
  {
    if |routines| == 0 {
    } else {
      SameUnwritten(routines[..|routines| - 1], others[..|routines| - 1]);
    }
  }

  lemma {:induction false} NoneUnwritten(routines: seq<Routine>)
    ensures Unwritten(routines) >= 0
  {
  }

  /** What a fresh system has before it, at most. */
  ghost function StepBound(chunks: seq<Chunk>): int {
    Left(chunks, Start(chunks, 0))
  }

  lemma {:induction false} StepsBounded(chunks: seq<Chunk>, startTime: int, endTime: int, zeroTime: int,
                                        ss: seq<Sys>, steps: seq<Step>, n: nat)
    requires Held(chunks, startTime, endTime) && Finite(chunks, startTime, endTime)
    requires IsExecution(chunks, startTime, endTime, zeroTime, ss, steps) && n < |ss|
    ensures n + Left(chunks, ss[n]) <= StepBound(chunks)
  {
    hide Held, Finite, Going, Next, Enabled, Left;
    if n == 0 {
      SameLeft(chunks, startTime);
    } else {
      var i := n - 1;
      StepsBounded(chunks, startTime, endTime, zeroTime, ss, steps, i);
      ExecutionGoing(chunks, startTime, endTime, zeroTime, ss, steps, i);
      assert Taken(chunks, endTime, zeroTime, ss, steps, i);
      StepCountsDown(chunks, startTime, endTime, zeroTime, ss[i], steps[i]);
    }
  }

  lemma {:induction false} SameLeft(chunks: seq<Chunk>, startTime: int)
    ensures Left(chunks, Start(chunks, startTime)) == StepBound(chunks)
  {
  }

  lemma {:induction false} LeftNatural(chunks: seq<Chunk>, startTime: int, endTime: int, s: Sys)
    requires Going(chunks, startTime, endTime, s)
    ensures Left(chunks, s) >= 0
  {
    AllSent(chunks, startTime, endTime, s);
  }

  /** With a candle held, every interleaving takes a bounded number of steps, never gets stuck, and one that
      cannot go on is done. */
  lemma {:induction false} EveryReplayFinishes(chunks: seq<Chunk>, startTime: int, endTime: int, zeroTime: int,
                                               ss: seq<Sys>, steps: seq<Step>, n: nat)
    requires Held(chunks, startTime, endTime) && Finite(chunks, startTime, endTime)
    requires IsExecution(chunks, startTime, endTime, zeroTime, ss, steps) && n < |ss|
    ensures |steps| <= StepBound(chunks) && !ss[n].cursor.stuck
    ensures (forall step :: !Enabled(chunks, ss[n], step)) ==> ss[n].done
  {
    hide Held, Finite, Left, Enabled;
    var m := |steps|;
    StepsBounded(chunks, startTime, endTime, zeroTime, ss, steps, m);
    ExecutionGoing(chunks, startTime, endTime, zeroTime, ss, steps, m);
    LeftNatural(chunks, startTime, endTime, ss[m]);
    ExecutionGoing(chunks, startTime, endTime, zeroTime, ss, steps, n);
    if !ss[n].done {
      var step := SomeStep(chunks, startTime, endTime, ss[n]);
    }
  }

  // ---------- nothing held ----------

  lemma {:induction false} NeverDone(chunks: seq<Chunk>, startTime: int, endTime: int, zeroTime: int,
                                     ss: seq<Sys>, steps: seq<Step>, n: nat)
    requires Held(chunks, startTime, endTime) && !Finite(chunks, startTime, endTime)
    requires IsExecution(chunks, startTime, endTime, zeroTime, ss, steps) && n < |ss|
    ensures !ss[n].done && ss[n].cursor == Cursor(startTime, [], false)
  {
    hide Held, Enabled, Next;
    if n == 0 {
    } else {
      var i := n - 1;
      NeverDone(chunks, startTime, endTime, zeroTime, ss, steps, i);
      assert Taken(chunks, endTime, zeroTime, ss, steps, i);
      NothingHappens(chunks, startTime, endTime, zeroTime, ss[i], steps[i]);
    }
  }

  lemma {:induction false} NothingHappens(chunks: seq<Chunk>, startTime: int, endTime: int, zeroTime: int, s: Sys,
                                          step: Step)
    requires |s.routines| == |chunks| && Enabled(chunks, s, step) && |AllBars(chunks)| == 0 && startTime != endTime
    requires !s.done && s.cursor == Cursor(startTime, [], false)
    ensures !Next(chunks, endTime, zeroTime, s, step).done
    ensures Next(chunks, endTime, zeroTime, s, step).cursor == Cursor(startTime, [], false)
  {
    hide Arrived, AllBars;
    if step.RunPass? {
      NothingArrives(chunks, s.routines);
      EmptyPass(s.cursor, s.empties, endTime);
    }
  }

  lemma {:induction false} NothingArrives(chunks: seq<Chunk>, routines: seq<Routine>)
    requires |chunks| == |routines| && |AllBars(chunks)| == 0
    ensures Arrived(chunks, routines) == []
  {
    if |Arrived(chunks, routines)| == 0 {
    } else {
      ArrivedAreHeld(chunks, routines, 0);
    }
  }

  /** One more step. */
  lemma {:induction false} ExecutionGrows(chunks: seq<Chunk>, startTime: int, endTime: int, zeroTime: int,
                                          ss: seq<Sys>, steps: seq<Step>, step: Step)
    requires IsExecution(chunks, startTime, endTime, zeroTime, ss, steps) && Enabled(chunks, ss[|steps|], step)
    ensures IsExecution(chunks, startTime, endTime, zeroTime,
                        ss + [Next(chunks, endTime, zeroTime, ss[|steps|], step)], steps + [step])
  {
    hide Next, Enabled;
    var tt, more := ss + [Next(chunks, endTime, zeroTime, ss[|steps|], step)], steps + [step];
    NextKeepsRoutines(chunks, endTime, zeroTime, ss[|steps|], step);
    forall i | 0 <= i < |more| ensures Taken(chunks, endTime, zeroTime, tt, more, i) {
      assert i < |steps| ==> Taken(chunks, endTime, zeroTime, ss, steps, i);
    }
  }

  lemma {:induction false} NextKeepsRoutines(chunks: seq<Chunk>, endTime: int, zeroTime: int, s: Sys, step: Step)
    requires |s.routines| == |chunks| && Enabled(chunks, s, step)
    ensures |Next(chunks, endTime, zeroTime, s, step).routines| == |chunks|
  {
  }

  /** With no candle held there are interleavings of any length. */
  lemma {:induction false} NeverFinishes(chunks: seq<Chunk>, startTime: int, endTime: int, zeroTime: int, n: nat)
    returns (ss: seq<Sys>, steps: seq<Step>)
    requires Held(chunks, startTime, endTime) && !Finite(chunks, startTime, endTime)
    ensures IsExecution(chunks, startTime, endTime, zeroTime, ss, steps) && |steps| == n
    ensures forall i :: 0 <= i < |ss| ==> !ss[i].done
  {
    hide Held, Next, Enabled, Finite;
    if n == 0 {
      ss, steps := [Start(chunks, startTime)], [];
    } else {
      ss, steps := NeverFinishes(chunks, startTime, endTime, zeroTime, n - 1);
      ExecutionGoing(chunks, startTime, endTime, zeroTime, ss, steps, n - 1);
      var step := SomeStep(chunks, startTime, endTime, ss[n - 1]);
      ExecutionGrows(chunks, startTime, endTime, zeroTime, ss, steps, step);
      ss, steps := ss + [Next(chunks, endTime, zeroTime, ss[n - 1], step)], steps + [step];
      NeverDone(chunks, startTime, endTime, zeroTime, ss, steps, n);
    }
  }

  /** No interleaving takes more steps than this. */
  ghost predicate Bounded(chunks: seq<Chunk>, startTime: int, endTime: int, zeroTime: int, bound: int) {
    forall ss, steps :: IsExecution(chunks, startTime, endTime, zeroTime, ss, steps) ==> |steps| <= bound
  }

  lemma {:induction false} NotBounded(chunks: seq<Chunk>, startTime: int, endTime: int, zeroTime: int, bound: int)
    requires Held(chunks, startTime, endTime) && !Finite(chunks, startTime, endTime)
    ensures !Bounded(chunks, startTime, endTime, zeroTime, bound)
  {
    hide Held, Finite, IsExecution;
    var ss, steps := NeverFinishes(chunks, startTime, endTime, zeroTime, if bound < 0 then 0 else bound + 1);
    assert |steps| > bound;
  }

  /** The interleavings of a range are of bounded length exactly if some candle of it is held or it is empty. */
  lemma {:induction false} FinishesIff(chunks: seq<Chunk>, startTime: int, endTime: int, zeroTime: int)
    requires Held(chunks, startTime, endTime)
    ensures (exists bound: int :: Bounded(chunks, startTime, endTime, zeroTime, bound))
       <==> Finite(chunks, startTime, endTime)
  {
    hide Held, Finite;
    if Finite(chunks, startTime, endTime) {
      forall ss, steps | IsExecution(chunks, startTime, endTime, zeroTime, ss, steps)
        ensures |steps| <= StepBound(chunks)
      {
        EveryReplayFinishes(chunks, startTime, endTime, zeroTime, ss, steps, 0);
      }
      assert Bounded(chunks, startTime, endTime, zeroTime, StepBound(chunks));
    } else {
      forall bound: int ensures !Bounded(chunks, startTime, endTime, zeroTime, bound) {
        NotBounded(chunks, startTime, endTime, zeroTime, bound);
      }
    }
  }
}
