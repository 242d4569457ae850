/** Fetching in chunks and replaying (concFetchCandleData, getChunkCandleDataAll, computeBacktest):
    the range is cut into windows, one goroutine per window reports its gaps on the channel and
    then hands over its candles, the channel is closed when all are through, and the replay loop
    makes one pass per message. Every interleaving is a sequence of the steps below. */
module Pipeline {
  import opened ChunkGaps
  import opened Replay

  // ---------- windows ----------

  datatype Window = Window(s: int, e: int)

  /** The windows of a range; width is the chunk size times the period. */
  function Windows(start: int, end: int, width: int): seq<Window>
    requires width > 0
    decreases end - start
  {
    if start >= end then []
    else
      var e := if start + width > end then end else start + width;
      [Window(start, e)] + Windows(e, end, width)
  }

  /** The loop of concFetchCandleData that starts one goroutine per window. */
  method CutWindows(startTime: int, endTime: int, width: int) returns (ws: seq<Window>)
    requires width > 0
    ensures ws == Windows(startTime, endTime, width)
  {
    ws := [];
    var fetchCandlesStart := startTime;
    while true
      invariant Windows(startTime, endTime, width) == ws + Windows(fetchCandlesStart, endTime, width)
      decreases endTime - fetchCandlesStart
    {
      if fetchCandlesStart == endTime || fetchCandlesStart > endTime {
        break;
      }
      var fetchCandlesEnd := fetchCandlesStart + width;
      if fetchCandlesEnd > endTime {
        fetchCandlesEnd := endTime;
      }
      ws := ws + [Window(fetchCandlesStart, fetchCandlesEnd)];
      fetchCandlesStart := fetchCandlesEnd;
    }
  }

  /** The windows cut [start, end) into non-empty pieces of the width, end to end, the last one perhaps
      shorter. */
  lemma {:induction false} WindowsPartition(start: int, end: int, width: int)
    requires width > 0 && start <= end
    ensures var ws := Windows(start, end, width);
            && (ws == [] <==> start == end)
            && (|ws| > 0 ==> ws[0].s == start && ws[|ws| - 1].e == end)
            && (forall i :: 0 <= i < |ws| ==> ws[i].s < ws[i].e <= ws[i].s + width)
            && (forall i :: 0 <= i < |ws| - 1 ==> ws[i].e == ws[i + 1].s && ws[i].e == ws[i].s + width)
    decreases end - start
  {
    if start == end {
    } else {
      var e := if start + width > end then end else start + width;
      WindowsPartition(e, end, width);
    }
  }

  // ---------- the system ----------

  /** A window and the candles the cache or the fetch holds for it. */
  datatype Chunk = Chunk(window: Window, bars: seq<Bar>)

  /** A goroutine: how many of its reports were received and whether its slice is handed over. */
  datatype Routine = Routine(sent: nat, written: bool)

  datatype Sys = Sys(routines: seq<Routine>, closed: bool, pending: bool, empties: set<int>, cursor: Cursor, done: bool)

  /** A report is received; a slice is handed over; the channel is closed; the closed channel
      yields the zero time; the replay loop makes a pass. */
  datatype Step = Send(k: nat) | Write(k: nat) | Close | ReceiveClosed | RunPass

  function ReportsOf(c: Chunk): seq<int> {
    Reports(c.bars, c.window.s, c.window.e)
  }

  /** The candles that have arrived, in the order of the windows. */
  function Arrived(chunks: seq<Chunk>, routines: seq<Routine>): seq<Bar>
    requires |chunks| == |routines|
  {
    if |chunks| == 0 then []
    else Arrived(chunks[..|chunks| - 1], routines[..|routines| - 1])
         + if routines[|routines| - 1].written then chunks[|chunks| - 1].bars else []
  }

  function Start(chunks: seq<Chunk>, startTime: int): Sys {
    Sys(seq(|chunks|, _ => Routine(0, false)), false, false, {}, Cursor(startTime, [], false), false)
  }

  predicate AllWritten(s: Sys) {
    forall k :: 0 <= k < |s.routines| ==> s.routines[k].written
  }

  predicate Enabled(chunks: seq<Chunk>, s: Sys, step: Step)
    requires |s.routines| == |chunks|
  {
    match step
    case Send(k) => k < |chunks| && !s.done && !s.pending && !s.cursor.stuck
        && s.routines[k].sent < |ReportsOf(chunks[k])|
    case Write(k) => k < |chunks| && !s.routines[k].written && s.routines[k].sent == |ReportsOf(chunks[k])|
    case Close => AllWritten(s) && !s.closed
    case ReceiveClosed => s.closed && !s.done && !s.pending && !s.cursor.stuck
    case RunPass => s.pending
  }

  function Next(chunks: seq<Chunk>, endTime: int, zeroTime: int, s: Sys, step: Step): Sys
    requires |s.routines| == |chunks| && Enabled(chunks, s, step)
  {
    match step
    case Send(k) =>
      s.(routines := s.routines[k := s.routines[k].(sent := s.routines[k].sent + 1)], pending := true,
         empties := s.empties + {ReportsOf(chunks[k])[s.routines[k].sent]})
    case Write(k) => s.(routines := s.routines[k := s.routines[k].(written := true)])
    case Close => s.(closed := true)
    case ReceiveClosed => s.(pending := true, empties := s.empties + {zeroTime})
    case RunPass =>
      var c := Pass(s.cursor, Arrived(chunks, s.routines), 0, s.empties, endTime);
      s.(pending := false, cursor := c, done := c.required == endTime && !c.stuck)
  }

  /** An interleaving: the states and the steps between them. */
  ghost predicate IsExecution(chunks: seq<Chunk>, startTime: int, endTime: int, zeroTime: int, ss: seq<Sys>,
                              steps: seq<Step>) {
    && |ss| == |steps| + 1 && ss[0] == Start(chunks, startTime)
    && (forall i :: 0 <= i < |ss| ==> |ss[i].routines| == |chunks|)
    && forall i :: 0 <= i < |steps| ==> Taken(chunks, endTime, zeroTime, ss, steps, i)
  }

  ghost predicate Taken(chunks: seq<Chunk>, endTime: int, zeroTime: int, ss: seq<Sys>, steps: seq<Step>, i: nat)
    requires i < |steps| && |ss| == |steps| + 1
  {
    && |ss[i].routines| == |chunks| && Enabled(chunks, ss[i], steps[i])
    && ss[i + 1] == Next(chunks, endTime, zeroTime, ss[i], steps[i])
  }

  // ---------- no candle is replayed ----------

  ghost predicate InChunks(bar: Bar, chunks: seq<Chunk>) {
    exists k :: 0 <= k < |chunks| && bar in chunks[k].bars
  }

  ghost predicate FromChunks(bars: seq<Bar>, chunks: seq<Chunk>) {
    forall i :: 0 <= i < |bars| ==> InChunks(bars[i], chunks)
  }

  lemma {:induction false} InMoreChunks(bar: Bar, chunks: seq<Chunk>)
    requires |chunks| > 0 && (InChunks(bar, chunks[..|chunks| - 1]) || bar in chunks[|chunks| - 1].bars)
    ensures InChunks(bar, chunks)
  {
    var n := |chunks| - 1;
    if bar !in chunks[n].bars {
      var k :| 0 <= k < n && bar in chunks[..n][k].bars;
      assert bar in chunks[k].bars;
    }
  }

  lemma {:induction false} ArrivedFromChunks(chunks: seq<Chunk>, routines: seq<Routine>)
    requires |chunks| == |routines|
    ensures FromChunks(Arrived(chunks, routines), chunks)
  {
    if |chunks| == 0 {
    } else {
      var n := |chunks| - 1;
      ArrivedFromChunks(chunks[..n], routines[..n]);
      var before, bars := Arrived(chunks[..n], routines[..n]), Arrived(chunks, routines);
      forall i | 0 <= i < |bars| ensures InChunks(bars[i], chunks) {
        assert i < |before| ==> bars[i] == before[i];
        InMoreChunks(bars[i], chunks);
      }
    }
  }

  /** In every interleaving, with or without gaps, the candles given to the strategy come from
      the chunks in strictly increasing time: none is given twice. */
  lemma {:induction false} ReplayInOrder(chunks: seq<Chunk>, startTime: int, endTime: int, zeroTime: int, ss: seq<Sys>,
                                         steps: seq<Step>, n: nat)
    requires IsExecution(chunks, startTime, endTime, zeroTime, ss, steps) && n < |ss|
    ensures InOrder(ss[n].cursor) && FromChunks(ss[n].cursor.emitted, chunks)
    ensures n > 0 ==> ss[n - 1].cursor.emitted <= ss[n].cursor.emitted
  {
    if n == 0 {
    } else {
      var i := n - 1;
      ReplayInOrder(chunks, startTime, endTime, zeroTime, ss, steps, i);
      assert Taken(chunks, endTime, zeroTime, ss, steps, i);
      if steps[i].RunPass? {
        PassInOrder(chunks, endTime, ss[i], ss[n].cursor);
      }
    }
  }

  lemma {:induction false} PassInOrder(chunks: seq<Chunk>, endTime: int, s: Sys, c: Cursor)
    requires |s.routines| == |chunks| && InOrder(s.cursor) && FromChunks(s.cursor.emitted, chunks)
    requires c == Pass(s.cursor, Arrived(chunks, s.routines), 0, s.empties, endTime)
    ensures InOrder(c) && FromChunks(c.emitted, chunks) && s.cursor.emitted <= c.emitted
  {
    var bars := Arrived(chunks, s.routines);
    PassKeepsOrder(s.cursor, bars, 0, s.empties, endTime);
    ArrivedFromChunks(chunks, s.routines);
    forall i | 0 <= i < |c.emitted| ensures InChunks(c.emitted[i], chunks) {
      if i < |s.cursor.emitted| {
        assert c.emitted[i] == s.cursor.emitted[i];
      } else {
        var j :| 0 <= j < |bars| && bars[j] == c.emitted[i];
      }
    }
  }

  // ---------- a range without gaps ----------

  function AllBars(chunks: seq<Chunk>): seq<Bar> {
    if |chunks| == 0 then [] else AllBars(chunks[..|chunks| - 1]) + chunks[|chunks| - 1].bars
  }

  /** The chunks of the range, none with an absent minute. */
  ghost predicate Complete(chunks: seq<Chunk>, startTime: int, endTime: int) {
    && startTime <= endTime
    && |chunks| == |Windows(startTime, endTime, CHUNK_SIZE)|
    && forall k :: 0 <= k < |chunks| ==> CompleteChunk(chunks[k], Windows(startTime, endTime, CHUNK_SIZE)[k])
  }

  ghost predicate CompleteChunk(c: Chunk, w: Window) {
    c.window == w && InWindow(c.bars, w.s, w.e) && NoneAbsent(c.bars, w.s, w.e)
  }

  /** One bar for every minute of [start, end). */
  ghost predicate EveryMinute(bars: seq<Bar>, start: int, end: int) {
    |bars| == end - start && forall i :: 0 <= i < |bars| ==> bars[i].start == start + i
  }

  lemma {:induction false} BarsUpTo(chunks: seq<Chunk>, startTime: int, endTime: int, k: nat)
    requires Complete(chunks, startTime, endTime) && k <= |chunks|
    ensures EveryMinute(AllBars(chunks[..k]), startTime,
                        if k == 0 then startTime else Windows(startTime, endTime, CHUNK_SIZE)[k - 1].e)
  {
    WindowsPartition(startTime, endTime, CHUNK_SIZE);
    if k == 0 {
    } else {
      BarsUpTo(chunks, startTime, endTime, k - 1);
      assert chunks[..k][..k - 1] == chunks[..k - 1];
      var c, w := chunks[k - 1], Windows(startTime, endTime, CHUNK_SIZE)[k - 1];
      assert CompleteChunk(c, w);
      CompleteIsEveryMinute(c.bars, w.s, w.e);
    }
  }

  /** Together the chunks of a complete range hold exactly its full candle sequence. */
  lemma {:induction false} AllBarsAreEveryMinute(chunks: seq<Chunk>, startTime: int, endTime: int)
    requires Complete(chunks, startTime, endTime)
    ensures EveryMinute(AllBars(chunks), startTime, endTime)
  {
    BarsUpTo(chunks, startTime, endTime, |chunks|);
    WindowsPartition(startTime, endTime, CHUNK_SIZE);
    assert chunks[..|chunks|] == chunks;
  }

  lemma {:induction false} ArrivedAll(chunks: seq<Chunk>, routines: seq<Routine>)
    requires |chunks| == |routines| && forall k :: 0 <= k < |routines| ==> routines[k].written
    ensures Arrived(chunks, routines) == AllBars(chunks)
  {
    if |chunks| == 0 {
    } else {
      ArrivedAll(chunks[..|chunks| - 1], routines[..|routines| - 1]);
    }
  }

  lemma {:induction false} NoReports(chunks: seq<Chunk>, startTime: int, endTime: int, k: nat)
    requires Complete(chunks, startTime, endTime) && k < |chunks|
    ensures ReportsOf(chunks[k]) == []
  {
    var w := Windows(startTime, endTime, CHUNK_SIZE)[k];
    assert CompleteChunk(chunks[k], w);
    SilentIffComplete(chunks[k].bars, w.s, w.e);
  }

  /** Until the channel is closed nothing is replayed; then everything is, in one pass. */
  ghost predicate Quiet(chunks: seq<Chunk>, startTime: int, endTime: int, s: Sys) {
    && |s.routines| == |chunks|
    && (forall k :: 0 <= k < |s.routines| ==> s.routines[k].sent == 0)
    && (s.closed ==> AllWritten(s)) && (s.pending ==> s.closed && !s.done) && (s.done ==> s.closed)
    && s.cursor == (if s.done then Cursor(endTime, AllBars(chunks), false) else Cursor(startTime, [], false))
  }

  lemma {:induction false} StepStaysQuiet(chunks: seq<Chunk>, startTime: int, endTime: int, zeroTime: int, s: Sys,
                                          step: Step)
    requires Complete(chunks, startTime, endTime) && Quiet(chunks, startTime, endTime, s) && Enabled(chunks, s, step)
    ensures Quiet(chunks, startTime, endTime, Next(chunks, endTime, zeroTime, s, step))
    ensures !step.Send?
  {
    match step
    case Send(k) =>
      NoReports(chunks, startTime, endTime, k);
    case Write(k) =>
    case Close =>
    case ReceiveClosed =>
    case RunPass =>
      ArrivedAll(chunks, s.routines);
      AllBarsAreEveryMinute(chunks, startTime, endTime);
      PassTakesAll(s.cursor, AllBars(chunks), 0, s.empties, endTime);
      assert AllBars(chunks)[0..] == AllBars(chunks);
  }

  lemma {:induction false} StaysQuiet(chunks: seq<Chunk>, startTime: int, endTime: int, zeroTime: int, ss: seq<Sys>,
                                      steps: seq<Step>, n: nat)
    requires Complete(chunks, startTime, endTime)
    requires IsExecution(chunks, startTime, endTime, zeroTime, ss, steps) && n < |ss|
    ensures Quiet(chunks, startTime, endTime, ss[n])
  {
    if n == 0 {
    } else {
      var i := n - 1;
      StaysQuiet(chunks, startTime, endTime, zeroTime, ss, steps, i);
      assert Taken(chunks, endTime, zeroTime, ss, steps, i);
      StepStaysQuiet(chunks, startTime, endTime, zeroTime, ss[i], steps[i]);
    }
  }

  /** Without gaps, whatever order the chunks complete in, a finished replay has given exactly the
      full candle sequence and stands at the end time; before that nothing was given. */
  lemma {:induction false} FullReplay(chunks: seq<Chunk>, startTime: int, endTime: int, zeroTime: int, ss: seq<Sys>,
                                      steps: seq<Step>, n: nat)
    requires Complete(chunks, startTime, endTime)
    requires IsExecution(chunks, startTime, endTime, zeroTime, ss, steps) && n < |ss|
    ensures if ss[n].done then EveryMinute(ss[n].cursor.emitted, startTime, endTime) && ss[n].cursor.required == endTime
            else ss[n].cursor.emitted == []
    ensures FromChunks(ss[n].cursor.emitted, chunks)
  {
    StaysQuiet(chunks, startTime, endTime, zeroTime, ss, steps, n);
    AllBarsAreEveryMinute(chunks, startTime, endTime);
    ReplayInOrder(chunks, startTime, endTime, zeroTime, ss, steps, n);
  }

  // ---------- it finishes ----------

  ghost function Unwritten(routines: seq<Routine>): nat {
    if |routines| == 0 then 0
    else Unwritten(routines[..|routines| - 1]) + if routines[|routines| - 1].written then 0 else 1
  }

  lemma {:induction false} WriteOne(routines: seq<Routine>, k: nat)
    requires k < |routines| && !routines[k].written
    ensures Unwritten(routines[k := routines[k].(written := true)]) == Unwritten(routines) - 1
  {
    var n, ts := |routines| - 1, routines[k := routines[k].(written := true)];
    if k < n {
      WriteOne(routines[..n], k);
      assert ts[..n] == routines[..n][k := routines[k].(written := true)];
    } else {
      assert ts[..n] == routines[..n];
    }
  }

  lemma {:induction false} UnwrittenAtStart(routines: seq<Routine>)
    ensures (forall k :: 0 <= k < |routines| ==> !routines[k].written) ==> Unwritten(routines) == |routines|
    ensures Unwritten(routines) <= |routines|
  {
    if |routines| == 0 {
    } else {
      UnwrittenAtStart(routines[..|routines| - 1]);
    }
  }

  /** Steps still to come on a complete range. */
  ghost function ToGo(s: Sys): nat {
    Unwritten(s.routines) + (if s.closed then 0 else 1) + (if s.done then 0 else if s.pending then 1 else 2)
  }

  lemma {:induction false} StepGoesOn(chunks: seq<Chunk>, startTime: int, endTime: int, zeroTime: int, s: Sys,
                                      step: Step)
    requires Complete(chunks, startTime, endTime) && Quiet(chunks, startTime, endTime, s) && Enabled(chunks, s, step)
    ensures ToGo(Next(chunks, endTime, zeroTime, s, step)) == ToGo(s) - 1
  {
    StepStaysQuiet(chunks, startTime, endTime, zeroTime, s, step);
    match step
    case Send(k) => NoReports(chunks, startTime, endTime, k);
    case Write(k) => WriteOne(s.routines, k);
    case Close =>
    case ReceiveClosed =>
    case RunPass =>
      ArrivedAll(chunks, s.routines);
      AllBarsAreEveryMinute(chunks, startTime, endTime);
      PassTakesAll(s.cursor, AllBars(chunks), 0, s.empties, endTime);
  }

  /** Without gaps there is never a deadlock: some step can be taken until the replay is done. */
  lemma {:induction false} NeverStuck(chunks: seq<Chunk>, startTime: int, endTime: int, s: Sys) returns (step: Step)
    requires Complete(chunks, startTime, endTime) && Quiet(chunks, startTime, endTime, s) && !s.done
    ensures Enabled(chunks, s, step)
  {
    if !AllWritten(s) {
      var k :| 0 <= k < |s.routines| && !s.routines[k].written;
      NoReports(chunks, startTime, endTime, k);
      step := Write(k);
    } else if !s.closed {
      step := Close;
    } else if s.pending {
      step := RunPass;
    } else {
      step := ReceiveClosed;
    }
  }

  /** Without gaps every interleaving takes at most one step per chunk and three more; one that
      cannot go on is done. */
  lemma {:induction false} ReplayFinishes(chunks: seq<Chunk>, startTime: int, endTime: int, zeroTime: int, ss: seq<Sys>,
                                          steps: seq<Step>, n: nat)
    requires Complete(chunks, startTime, endTime)
    requires IsExecution(chunks, startTime, endTime, zeroTime, ss, steps) && n < |ss|
    ensures n + ToGo(ss[n]) == |chunks| + 3
    ensures (forall step :: !Enabled(chunks, ss[n], step)) ==> ss[n].done
  {
    StaysQuiet(chunks, startTime, endTime, zeroTime, ss, steps, n);
    if !ss[n].done {
      var step := NeverStuck(chunks, startTime, endTime, ss[n]);
    }
    if n == 0 {
      UnwrittenAtStart(ss[0].routines);
    } else {
      var i := n - 1;
      ReplayFinishes(chunks, startTime, endTime, zeroTime, ss, steps, i);
      StaysQuiet(chunks, startTime, endTime, zeroTime, ss, steps, i);
      assert Taken(chunks, endTime, zeroTime, ss, steps, i);
      StepGoesOn(chunks, startTime, endTime, zeroTime, ss[i], steps[i]);
    }
  }
}
