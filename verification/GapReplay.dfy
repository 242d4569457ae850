/** Replaying a range with gaps: over all interleavings of Pipeline, exactly when every candle that
    was fetched is also replayed, and how much can be lost when it is not. */
module GapReplay {
  import opened Records
  import opened ChunkGaps
  import opened Replay
  import opened Pipeline

  /** The chunks of the range hold one-minute candles of their windows, in order. */
  ghost predicate Held(chunks: seq<Chunk>, startTime: int, endTime: int) {
    && startTime <= endTime
    && |chunks| == |Windows(startTime, endTime, CHUNK_SIZE)|
    && forall k :: 0 <= k < |chunks| ==> HeldChunk(chunks[k], Windows(startTime, endTime, CHUNK_SIZE)[k])
  }

  ghost predicate HeldChunk(c: Chunk, w: Window) {
    c.window == w && InWindow(c.bars, w.s, w.e)
  }

  /** A candle is held for a minute after one that has none. */
  ghost predicate GapFollowed(bars: seq<Bar>, startTime: int) {
    exists i, t :: 0 <= i < |bars| && FollowsGap(bars, startTime, i, t)
  }

  ghost predicate FollowsGap(bars: seq<Bar>, startTime: int, i: nat, t: int)
    requires i < |bars|
  {
    startTime <= t < bars[i].start && !Present(bars, t)
  }

  // ---------- the candles of all chunks ----------

  /** One-minute candles inside [start, end) in strictly increasing time. */
  ghost predicate Spread(bars: seq<Bar>, start: int, end: int) {
    && Increasing(bars)
    && forall i :: 0 <= i < |bars| ==> start <= bars[i].start < end && bars[i].end == bars[i].start + 1
  }

  lemma {:induction false} SpreadJoins(a: seq<Bar>, b: seq<Bar>, s: int, m: int, e: int)
    requires Spread(a, s, m) && Spread(b, m, e) && s <= m <= e
    ensures Spread(a + b, s, e)
  {
  }

  lemma {:induction false} BarsSpread(chunks: seq<Chunk>, startTime: int, endTime: int, k: nat)
    requires Held(chunks, startTime, endTime) && k <= |chunks|
    ensures var e := if k == 0 then startTime else Windows(startTime, endTime, CHUNK_SIZE)[k - 1].e;
            Spread(AllBars(chunks[..k]), startTime, e) && startTime <= e <= endTime
  {
    WindowsPartition(startTime, endTime, CHUNK_SIZE);
    if k == 0 {
    } else {
      BarsSpread(chunks, startTime, endTime, k - 1);
      WindowEnds(startTime, endTime, k - 1);
      assert chunks[..k][..k - 1] == chunks[..k - 1];
      var c, w := chunks[k - 1], Windows(startTime, endTime, CHUNK_SIZE)[k - 1];
      assert HeldChunk(c, w);
      SpreadJoins(AllBars(chunks[..k - 1]), c.bars, startTime, w.s, w.e);
    }
  }

  lemma {:induction false} WindowEnds(startTime: int, endTime: int, k: nat)
    requires startTime <= endTime && k < |Windows(startTime, endTime, CHUNK_SIZE)|
    ensures var w := Windows(startTime, endTime, CHUNK_SIZE)[k];
            startTime <= w.s < w.e <= endTime && (k == 0 ==> w.s == startTime)
    decreases k
  {
    var ws := Windows(startTime, endTime, CHUNK_SIZE);
    WindowsPartition(startTime, endTime, CHUNK_SIZE);
    if k == 0 {
    } else {
      WindowEnds(startTime, endTime, k - 1);
    }
    WindowEndsBefore(startTime, endTime, k);
  }

  lemma {:induction false} WindowEndsBefore(startTime: int, endTime: int, k: nat)
    requires startTime <= endTime && k < |Windows(startTime, endTime, CHUNK_SIZE)|
    ensures Windows(startTime, endTime, CHUNK_SIZE)[k].e <= endTime
    decreases |Windows(startTime, endTime, CHUNK_SIZE)| - k
  {
    WindowsPartition(startTime, endTime, CHUNK_SIZE);
    if k + 1 == |Windows(startTime, endTime, CHUNK_SIZE)| {
    } else {
      WindowEndsBefore(startTime, endTime, k + 1);
    }
  }

  lemma {:induction false} AllBarsSpread(chunks: seq<Chunk>, startTime: int, endTime: int)
    requires Held(chunks, startTime, endTime)
    ensures Spread(AllBars(chunks), startTime, endTime)
  {
    BarsSpread(chunks, startTime, endTime, |chunks|);
    assert chunks[..|chunks|] == chunks;
  }

  lemma {:induction false} ChunkInAll(chunks: seq<Chunk>, k: nat, bar: Bar)
    requires k < |chunks| && bar in chunks[k].bars
    ensures bar in AllBars(chunks)
  {
    var n := |chunks| - 1;
    if k == n {
    } else {
      ChunkInAll(chunks[..n], k, bar);
    }
  }

  lemma {:induction false} AllInChunk(chunks: seq<Chunk>, bar: Bar) returns (k: nat)
    requires bar in AllBars(chunks)
    ensures k < |chunks| && bar in chunks[k].bars
  {
    var n := |chunks| - 1;
    if bar in chunks[n].bars {
      k := n;
    } else {
      k := AllInChunk(chunks[..n], bar);
    }
  }

  lemma {:induction false} WindowsOrdered(startTime: int, endTime: int, j: nat, k: nat)
    requires startTime <= endTime && j < k < |Windows(startTime, endTime, CHUNK_SIZE)|
    ensures Windows(startTime, endTime, CHUNK_SIZE)[j].e <= Windows(startTime, endTime, CHUNK_SIZE)[k].s
    decreases k
  {
    WindowsPartition(startTime, endTime, CHUNK_SIZE);
    if j + 1 == k {
    } else {
      WindowsOrdered(startTime, endTime, j, k - 1);
    }
  }

  /** A candle of the range lies in the window of the chunk that holds it, and in no other. */
  lemma {:induction false} OneWindow(chunks: seq<Chunk>, startTime: int, endTime: int, j: nat, k: nat, bar: Bar)
    requires Held(chunks, startTime, endTime) && j < |chunks| && k < |chunks| && bar in chunks[j].bars
    requires chunks[k].window.s <= bar.start < chunks[k].window.e
    ensures j == k
  {
    var ws := Windows(startTime, endTime, CHUNK_SIZE);
    assert HeldChunk(chunks[k], ws[k]) && HeldChunk(chunks[j], ws[j]);
    if j < k {
      WindowsOrdered(startTime, endTime, j, k);
    } else if k < j {
      WindowsOrdered(startTime, endTime, k, j);
    }
  }

  /** A minute of a window is held exactly when the window's own chunk holds it. */
  lemma {:induction false} PresentInChunk(chunks: seq<Chunk>, startTime: int, endTime: int, k: nat, t: int)
    requires Held(chunks, startTime, endTime) && k < |chunks|
    requires chunks[k].window.s <= t < chunks[k].window.e
    ensures Present(AllBars(chunks), t) <==> Present(chunks[k].bars, t)
  {
    hide Held;
    var all := AllBars(chunks);
    if i :| 0 <= i < |chunks[k].bars| && chunks[k].bars[i].start == t {
      ChunkInAll(chunks, k, chunks[k].bars[i]);
    }
    if i :| 0 <= i < |all| && all[i].start == t {
      var j := AllInChunk(chunks, all[i]);
      OneWindow(chunks, startTime, endTime, j, k, all[i]);
    }
  }

  lemma {:induction false} WindowOf(startTime: int, endTime: int, t: int) returns (k: nat)
    requires startTime <= t < endTime
    ensures k < |Windows(startTime, endTime, CHUNK_SIZE)|
    ensures var w := Windows(startTime, endTime, CHUNK_SIZE)[k]; w.s <= t < w.e
    decreases endTime - startTime
  {
    var e := if startTime + CHUNK_SIZE > endTime then endTime else startTime + CHUNK_SIZE;
    if t < e {
      k := 0;
    } else {
      var j := WindowOf(e, endTime, t);
      k := j + 1;
    }
  }

  // ---------- reports ----------

  /** Every minute of the range without a candle is reported by some chunk. */
  lemma {:induction false} AbsentHasReport(chunks: seq<Chunk>, startTime: int, endTime: int, t: int) returns (k: nat)
    requires Held(chunks, startTime, endTime) && startTime <= t < endTime && !Present(AllBars(chunks), t)
    ensures k < |chunks| && t in ReportsOf(chunks[k])
  {
    k := WindowOf(startTime, endTime, t);
    var w := Windows(startTime, endTime, CHUNK_SIZE)[k];
    assert HeldChunk(chunks[k], w);
    PresentInChunk(chunks, startTime, endTime, k, t);
    AbsentIsReported(chunks[k].bars, w.s, w.e, t);
  }

  /** Whatever a chunk reports starts with an absent minute of its window. */
  lemma {:induction false} ReportsStartAbsent(c: Chunk, w: Window, t: int) returns (first: int)
    requires HeldChunk(c, w) && t in ReportsOf(c)
    ensures w.s <= first < w.e && !Present(c.bars, first) && first <= t
  {
    SilentIffComplete(c.bars, w.s, w.e);
    var a :| w.s <= a < w.e && !Present(c.bars, a);
    AbsentIsReported(c.bars, w.s, w.e, a);
    FirstAbsent(c.bars, w.s, w.e);
    first := w.s + Leading(c.bars, w.s, 0);
  }

  /** While no candle follows a gap, what is reported lies after every candle. */
  lemma {:induction false} ReportsComeLast(chunks: seq<Chunk>, startTime: int, endTime: int, k: nat, t: int, i: nat)
    requires Held(chunks, startTime, endTime) && !GapFollowed(AllBars(chunks), startTime)
    requires k < |chunks| && t in ReportsOf(chunks[k]) && i < |AllBars(chunks)|
    ensures t > AllBars(chunks)[i].start
  {
    var w := Windows(startTime, endTime, CHUNK_SIZE)[k];
    assert HeldChunk(chunks[k], w);
    var first := ReportsStartAbsent(chunks[k], w, t);
    WindowEnds(startTime, endTime, k);
    PresentInChunk(chunks, startTime, endTime, k, first);
    NothingAfter(AllBars(chunks), startTime, first, i);
  }

  lemma {:induction false} NothingAfter(bars: seq<Bar>, startTime: int, t: int, i: nat)
    requires !GapFollowed(bars, startTime) && startTime <= t && !Present(bars, t) && i < |bars|
    ensures bars[i].start < t
  {
    assert !FollowsGap(bars, startTime, i, t);
    assert bars[i].start == t ==> Present(bars, t);
  }

  // ---------- without a candle after a gap nothing is lost ----------

  /** Without a candle after a gap the candles are those of the first minutes, one for each. */
  lemma {:induction false} BarsAreAPrefix(bars: seq<Bar>, startTime: int, endTime: int, i: nat)
    requires Spread(bars, startTime, endTime) && !GapFollowed(bars, startTime) && i < |bars|
    ensures bars[i].start == startTime + i
  {
    var t := startTime + i;
    if i == 0 {
    } else {
      BarsAreAPrefix(bars, startTime, endTime, i - 1);
    }
    assert !FollowsGap(bars, startTime, i, t);
    assert forall k :: 0 <= k < |bars| && bars[k].start == t ==> k <= i;
  }

  /** The candles emitted are those before the cursor. */
  ghost predicate KeepsUp(c: Cursor, bars: seq<Bar>, startTime: int) {
    && startTime <= c.required
    && c.emitted == if c.required - startTime <= |bars| then bars[..c.required - startTime] else bars
  }

  ghost predicate BeyondAll(empties: set<int>, bars: seq<Bar>, startTime: int) {
    forall t :: t in empties ==> t < startTime || t >= startTime + |bars|
  }

  lemma {:induction false} AtBarKeepsUp(c: Cursor, bars: seq<Bar>, startTime: int, bar: Bar, last: Bar,
                                        empties: set<int>, endTime: int)
    requires EveryMinute(bars, startTime, startTime + |bars|) && bar in bars
    requires KeepsUp(c, bars, startTime) && BeyondAll(empties, bars, startTime)
    ensures KeepsUp(AtBar(c, bar, last, empties, endTime).0, bars, startTime)
  {
    if c.required == bar.start {
      var i := c.required - startTime;
      assert bar == bars[i] && bars[..i] + [bars[i]] == bars[..i + 1];
    } else if c.required in empties && c.required < bar.start {
      SkipMovesOn(c.required, bar.start, empties);
    }
  }

  lemma {:induction false} PassKeepsUp(c: Cursor, bars: seq<Bar>, startTime: int, arrived: seq<Bar>, n: nat,
                                       empties: set<int>, endTime: int)
    requires EveryMinute(bars, startTime, startTime + |bars|) && forall i :: 0 <= i < |arrived| ==> arrived[i] in bars
    requires KeepsUp(c, bars, startTime) && BeyondAll(empties, bars, startTime) && n <= |arrived|
    ensures KeepsUp(Pass(c, arrived, n, empties, endTime), bars, startTime)
    decreases |arrived| - n
  {
    if n == |arrived| {
    } else {
      var last := arrived[|arrived| - 1];
      AtBarKeepsUp(c, bars, startTime, arrived[n], last, empties, endTime);
      var r := AtBar(c, arrived[n], last, empties, endTime);
      if !r.1 {
        PassKeepsUp(r.0, bars, startTime, arrived, n + 1, empties, endTime);
      }
    }
  }

  lemma {:induction false} ArrivedAreHeld(chunks: seq<Chunk>, routines: seq<Routine>, i: nat)
    requires |chunks| == |routines| && i < |Arrived(chunks, routines)|
    ensures Arrived(chunks, routines)[i] in AllBars(chunks)
  {
    ArrivedFromChunks(chunks, routines);
    var bar := Arrived(chunks, routines)[i];
    assert InChunks(bar, chunks);
    var k :| 0 <= k < |chunks| && bar in chunks[k].bars;
    ChunkInAll(chunks, k, bar);
  }

  /** Every interleaving keeps up with the candles and hears of absent minutes only after them. */
  lemma {:induction false} ExecutionKeepsUp(chunks: seq<Chunk>, startTime: int, endTime: int, zeroTime: int,
                                            ss: seq<Sys>, steps: seq<Step>, n: nat)
    requires Held(chunks, startTime, endTime) && !GapFollowed(AllBars(chunks), startTime) && zeroTime < startTime
    requires IsExecution(chunks, startTime, endTime, zeroTime, ss, steps) && n < |ss|
    ensures KeepsUp(ss[n].cursor, AllBars(chunks), startTime) && BeyondAll(ss[n].empties, AllBars(chunks), startTime)
    ensures ss[n].done ==> ss[n].cursor.required == endTime && !ss[n].pending
  {
    if n == 0 {
    } else {
      var i := n - 1;
      ExecutionKeepsUp(chunks, startTime, endTime, zeroTime, ss, steps, i);
      assert Taken(chunks, endTime, zeroTime, ss, steps, i);
      StepKeepsUp(chunks, startTime, endTime, zeroTime, ss[i], steps[i]);
    }
  }

  lemma {:induction false} StepKeepsUp(chunks: seq<Chunk>, startTime: int, endTime: int, zeroTime: int, s: Sys,
                                       step: Step)
    requires Held(chunks, startTime, endTime) && !GapFollowed(AllBars(chunks), startTime) && zeroTime < startTime
    requires |s.routines| == |chunks| && Enabled(chunks, s, step)
    requires KeepsUp(s.cursor, AllBars(chunks), startTime) && BeyondAll(s.empties, AllBars(chunks), startTime)
    requires s.done ==> s.cursor.required == endTime && !s.pending
    ensures var s' := Next(chunks, endTime, zeroTime, s, step);
            && KeepsUp(s'.cursor, AllBars(chunks), startTime) && BeyondAll(s'.empties, AllBars(chunks), startTime)
            && (s'.done ==> s'.cursor.required == endTime && !s'.pending)
  {
    var bars := AllBars(chunks);
    AllBarsSpread(chunks, startTime, endTime);
    forall i | 0 <= i < |bars| ensures bars[i].start == startTime + i {
      BarsAreAPrefix(bars, startTime, endTime, i);
    }
    match step
    case Send(k) =>
      var t := ReportsOf(chunks[k])[s.routines[k].sent];
      if |bars| > 0 {
        ReportsComeLast(chunks, startTime, endTime, k, t, |bars| - 1);
      }
    case Write(k) =>
    case Close =>
    case ReceiveClosed =>
    case RunPass =>
      var arrived := Arrived(chunks, s.routines);
      forall i | 0 <= i < |arrived| ensures arrived[i] in bars {
        ArrivedAreHeld(chunks, s.routines, i);
      }
      PassKeepsUp(s.cursor, bars, startTime, arrived, 0, s.empties, endTime);
  }

  // ---------- a candle after a gap can be lost ----------

  /** Some interleaving leads to this state. */
  ghost predicate Reachable(chunks: seq<Chunk>, startTime: int, endTime: int, zeroTime: int, s: Sys) {
    exists ss, steps :: IsExecution(chunks, startTime, endTime, zeroTime, ss, steps) && ss[|ss| - 1] == s
  }

  lemma {:induction false} ReachStart(chunks: seq<Chunk>, startTime: int, endTime: int, zeroTime: int)
    ensures Reachable(chunks, startTime, endTime, zeroTime, Start(chunks, startTime))
  {
    var ss, steps := [Start(chunks, startTime)], [];
    assert IsExecution(chunks, startTime, endTime, zeroTime, ss, steps) && ss[|ss| - 1] == Start(chunks, startTime);
  }

  lemma {:induction false} ReachNext(chunks: seq<Chunk>, startTime: int, endTime: int, zeroTime: int, s: Sys,
                                     step: Step)
    requires Reachable(chunks, startTime, endTime, zeroTime, s) && |s.routines| == |chunks| && Enabled(chunks, s, step)
    ensures Reachable(chunks, startTime, endTime, zeroTime, Next(chunks, endTime, zeroTime, s, step))
  {
    hide Enabled, Next;
    var ss, steps :| IsExecution(chunks, startTime, endTime, zeroTime, ss, steps) && ss[|ss| - 1] == s;
    var s' := Next(chunks, endTime, zeroTime, s, step);
    var ss', steps' := ss + [s'], steps + [step];
    SameRoutines(chunks, endTime, zeroTime, s, step);
    forall i | 0 <= i < |steps'| ensures Taken(chunks, endTime, zeroTime, ss', steps', i) {
      if i < |steps| {
        assert Taken(chunks, endTime, zeroTime, ss, steps, i);
      }
    }
    assert IsExecution(chunks, startTime, endTime, zeroTime, ss', steps') && ss'[|ss'| - 1] == s';
  }

  lemma {:induction false} SameRoutines(chunks: seq<Chunk>, endTime: int, zeroTime: int, s: Sys, step: Step)
    requires |s.routines| == |chunks| && Enabled(chunks, s, step)
    ensures |Next(chunks, endTime, zeroTime, s, step).routines| == |chunks|
  {
  }

  /** Nothing has arrived and nothing was replayed; all reports received so far are remembered. */
  ghost predicate Preparing(chunks: seq<Chunk>, startTime: int, s: Sys) {
    && |s.routines| == |chunks| && !s.closed && !s.pending && !s.done
    && s.cursor == Cursor(startTime, [], false)
    && forall k :: 0 <= k < |chunks| ==> Sending(chunks[k], s.routines[k], s.empties)
  }

  ghost predicate Sending(c: Chunk, r: Routine, empties: set<int>) {
    && !r.written && r.sent <= |ReportsOf(c)|
    && forall i :: 0 <= i < r.sent ==> ReportsOf(c)[i] in empties
  }

  lemma {:induction false} NothingArrived(chunks: seq<Chunk>, routines: seq<Routine>)
    requires |chunks| == |routines| && forall k :: 0 <= k < |routines| ==> !routines[k].written
    ensures Arrived(chunks, routines) == []
  {
    if |chunks| == 0 {
    } else {
      NothingArrived(chunks[..|chunks| - 1], routines[..|routines| - 1]);
    }
  }

  /** One report is received, and the pass after it finds nothing. */
  lemma {:induction false} SendOne(chunks: seq<Chunk>, startTime: int, endTime: int, zeroTime: int, s: Sys, k: nat)
    returns (s': Sys)
    requires startTime < endTime && Reachable(chunks, startTime, endTime, zeroTime, s)
    requires Preparing(chunks, startTime, s)
    requires k < |chunks| && s.routines[k].sent < |ReportsOf(chunks[k])|
    ensures Reachable(chunks, startTime, endTime, zeroTime, s') && Preparing(chunks, startTime, s')
    ensures s'.routines == s.routines[k := s.routines[k].(sent := s.routines[k].sent + 1)]
  {
    hide ReportsOf;
    assert forall j :: 0 <= j < |chunks| ==> Sending(chunks[j], s.routines[j], s.empties);
    var m := Next(chunks, endTime, zeroTime, s, Send(k));
    ReachNext(chunks, startTime, endTime, zeroTime, s, Send(k));
    NothingArrived(chunks, m.routines);
    s' := Next(chunks, endTime, zeroTime, m, RunPass);
    ReachNext(chunks, startTime, endTime, zeroTime, m, RunPass);
  }

  ghost predicate Sent(chunks: seq<Chunk>, s: Sys, k: nat) {
    |s.routines| == |chunks| && forall j :: 0 <= j < k && j < |chunks| ==> s.routines[j].sent == |ReportsOf(chunks[j])|
  }

  /** All reports can be received before any candle arrives. */
  lemma {:induction false} AllReported(chunks: seq<Chunk>, startTime: int, endTime: int, zeroTime: int) returns (s: Sys)
    requires startTime < endTime
    ensures Reachable(chunks, startTime, endTime, zeroTime, s) && Preparing(chunks, startTime, s)
    ensures Sent(chunks, s, |chunks|)
  {
    hide Reachable, ReportsOf;
    s := Start(chunks, startTime);
    ReachStart(chunks, startTime, endTime, zeroTime);
    var k := 0;
    while k < |chunks|
      invariant 0 <= k <= |chunks| && Sent(chunks, s, k)
      invariant Reachable(chunks, startTime, endTime, zeroTime, s) && Preparing(chunks, startTime, s)
    {
      while s.routines[k].sent < |ReportsOf(chunks[k])|
        invariant Sent(chunks, s, k)
        invariant Reachable(chunks, startTime, endTime, zeroTime, s) && Preparing(chunks, startTime, s)
        decreases |ReportsOf(chunks[k])| - s.routines[k].sent
      {
        s := SendOne(chunks, startTime, endTime, zeroTime, s, k);
      }
      assert Sending(chunks[k], s.routines[k], s.empties);
      k := k + 1;
    }
  }

  /** Then every chunk is handed over and the channel closed, still before anything is replayed. */
  lemma {:induction false} AllWaiting(chunks: seq<Chunk>, startTime: int, endTime: int, zeroTime: int) returns (s: Sys)
    requires startTime < endTime
    ensures Reachable(chunks, startTime, endTime, zeroTime, s) && AllWritten(s) && |s.routines| == |chunks|
    ensures s.closed && !s.pending && !s.done && s.cursor == Cursor(startTime, [], false)
    ensures forall k, t :: 0 <= k < |chunks| && t in ReportsOf(chunks[k]) ==> t in s.empties
  {
    hide Reachable, ReportsOf;
    s := AllReported(chunks, startTime, endTime, zeroTime);
    ghost var empties := s.empties;
    forall k, t | 0 <= k < |chunks| && t in ReportsOf(chunks[k]) ensures t in empties {
      assert Sending(chunks[k], s.routines[k], s.empties);
    }
    var k := 0;
    while k < |chunks|
      invariant 0 <= k <= |chunks| && Sent(chunks, s, |chunks|) && s.empties == empties
      invariant forall j :: 0 <= j < |chunks| ==> s.routines[j].written == (j < k)
      invariant !s.closed && !s.pending && !s.done && s.cursor == Cursor(startTime, [], false)
      invariant Reachable(chunks, startTime, endTime, zeroTime, s)
    {
      ReachNext(chunks, startTime, endTime, zeroTime, s, Write(k));
      s := Next(chunks, endTime, zeroTime, s, Write(k));
      k := k + 1;
    }
    ReachNext(chunks, startTime, endTime, zeroTime, s, Close);
    s := Next(chunks, endTime, zeroTime, s, Close);
  }

  /** Candle m follows a gap: the minute before it, from the cursor on, has none. */
  ghost predicate GapBefore(bars: seq<Bar>, required: int, n: nat, m: nat)
    requires n <= m < |bars|
  {
    (if m == n then required else bars[m - 1].start + 1) < bars[m].start
  }

  ghost predicate AllAbsentIn(empties: set<int>, bars: seq<Bar>, startTime: int, endTime: int) {
    forall t :: startTime <= t < endTime && !Present(bars, t) ==> t in empties
  }

  lemma {:induction false} BetweenIsAbsent(bars: seq<Bar>, startTime: int, endTime: int, n: nat, t: int)
    requires Spread(bars, startTime, endTime) && n <= |bars| && (n > 0 ==> bars[n - 1].start < t)
    requires n < |bars| ==> t < bars[n].start
    ensures !Present(bars, t)
  {
    forall i | 0 <= i < |bars| ensures bars[i].start != t {
      assert i < n - 1 ==> bars[i].start < bars[n - 1].start;
      assert n < i ==> bars[n].start < bars[i].start;
    }
  }

  /** A pass over all candles with all absent minutes reported steps over every candle after a gap. */
  lemma {:induction false} PassLoses(c: Cursor, bars: seq<Bar>, startTime: int, endTime: int, n: nat, empties: set<int>)
    requires Spread(bars, startTime, endTime) && AllAbsentIn(empties, bars, startTime, endTime) && n <= |bars|
    requires |bars| > 0
    requires startTime <= c.required && (n > 0 ==> c.required == bars[n - 1].start + 1)
    requires n < |bars| ==> c.required <= bars[n].start
    ensures var r := Pass(c, bars, n, empties, endTime);
            && r.required == bars[|bars| - 1].start + 1 && r.stuck == c.stuck
            && c.emitted <= r.emitted
            && (forall i :: |c.emitted| <= i < |r.emitted| ==> r.emitted[i].start >= c.required)
            && forall m :: n <= m < |bars| && GapBefore(bars, c.required, n, m) ==> bars[m] !in r.emitted[|c.emitted|..]
    decreases |bars| - n
  {
    if n == |bars| {
    } else {
      var last := bars[|bars| - 1];
      if c.required < bars[n].start {
        forall t | c.required <= t < bars[n].start ensures t in empties {
          BetweenIsAbsent(bars, startTime, endTime, n, t);
        }
        GapEndIsSteppedOver(c, bars[n], last, empties, endTime);
      }
      var d := AtBar(c, bars[n], last, empties, endTime).0;
      assert d.required == bars[n].start + 1;
      assert n + 1 < |bars| ==> bars[n].start < bars[n + 1].start;
      PassLoses(d, bars, startTime, endTime, n + 1, empties);
      var r := Pass(d, bars, n + 1, empties, endTime);
      assert r == Pass(c, bars, n, empties, endTime);
      forall m | n <= m < |bars| && GapBefore(bars, c.required, n, m) ensures bars[m] !in r.emitted[|c.emitted|..] {
        LostStaysLost(c, d, r, bars, n, m);
      }
    }
  }

  lemma {:induction false} LostStaysLost(c: Cursor, d: Cursor, r: Cursor, bars: seq<Bar>, n: nat, m: nat)
    requires n <= m < |bars| && Increasing(bars) && GapBefore(bars, c.required, n, m) && d.required == bars[n].start + 1
    requires d.emitted == (if c.required == bars[n].start then c.emitted + [bars[n]] else c.emitted)
    requires d.emitted <= r.emitted
    requires forall i :: |d.emitted| <= i < |r.emitted| ==> r.emitted[i].start >= d.required
    requires m > n ==> (GapBefore(bars, d.required, n + 1, m) ==> bars[m] !in r.emitted[|d.emitted|..])
    ensures bars[m] !in r.emitted[|c.emitted|..]
  {
    var added := r.emitted[|c.emitted|..];
    forall i | 0 <= i < |added| ensures added[i] != bars[m] {
      var j := |c.emitted| + i;
      assert added[i] == r.emitted[j];
      if j < |d.emitted| {
        assert r.emitted[j] == d.emitted[j] == bars[n];
      } else {
        assert r.emitted[j] in r.emitted[|d.emitted|..] by {
          assert r.emitted[j] == r.emitted[|d.emitted|..][j - |d.emitted|];
        }
      }
    }
  }

  /** Past the last candle the next pass walks to the end of the range. */
  lemma {:induction false} PassEnds(c: Cursor, bars: seq<Bar>, startTime: int, endTime: int, n: nat, empties: set<int>)
    requires Spread(bars, startTime, endTime) && n < |bars| && c.required in empties && c.required < endTime
    requires c.required == bars[|bars| - 1].start + 1
    ensures Pass(c, bars, n, empties, endTime) == c.(required := endTime)
    decreases |bars| - n
  {
    var last := |bars| - 1;
    assert n < last ==> bars[n].start < bars[last].start;
    if n == last {
    } else {
      PassEnds(c, bars, startTime, endTime, n + 1, empties);
    }
  }

  /** Which candle a gap comes before. */
  lemma {:induction false} FirstAfterGap(bars: seq<Bar>, startTime: int, endTime: int) returns (m: nat)
    requires Spread(bars, startTime, endTime) && GapFollowed(bars, startTime)
    ensures m < |bars| && GapBefore(bars, startTime, 0, m)
  {
    var i, t :| 0 <= i < |bars| && FollowsGap(bars, startTime, i, t);
    m := i;
    while m > 0 && bars[m - 1].start > t
      invariant 0 <= m <= i && t < bars[m].start
    {
      m := m - 1;
    }
    assert m > 0 ==> bars[m - 1].start != t;
  }

  lemma {:induction false} PassAll(chunks: seq<Chunk>, startTime: int, endTime: int, zeroTime: int, s: Sys)
    returns (s': Sys)
    requires Reachable(chunks, startTime, endTime, zeroTime, s) && |s.routines| == |chunks| && AllWritten(s)
    requires s.closed && !s.pending && !s.done && !s.cursor.stuck
    ensures Reachable(chunks, startTime, endTime, zeroTime, s')
    ensures |s'.routines| == |chunks| && AllWritten(s') && s'.closed && !s'.pending
    ensures s'.empties == s.empties + {zeroTime}
    ensures s'.cursor == Pass(s.cursor, AllBars(chunks), 0, s'.empties, endTime)
    ensures s'.done <==> s'.cursor.required == endTime && !s'.cursor.stuck
  {
    hide Reachable, Pass;
    ReachNext(chunks, startTime, endTime, zeroTime, s, ReceiveClosed);
    var m := Next(chunks, endTime, zeroTime, s, ReceiveClosed);
    ReachNext(chunks, startTime, endTime, zeroTime, m, RunPass);
    s' := Next(chunks, endTime, zeroTime, m, RunPass);
    ArrivedAll(chunks, m.routines);
  }

  /** A range that holds any candle has an interleaving that finishes and loses each candle after a gap. */
  lemma {:induction false} LosesAfterGaps(chunks: seq<Chunk>, startTime: int, endTime: int, zeroTime: int)
    returns (s: Sys)
    requires Held(chunks, startTime, endTime) && |AllBars(chunks)| > 0
    ensures Reachable(chunks, startTime, endTime, zeroTime, s) && s.done
    ensures var bars := AllBars(chunks);
            forall m :: 0 <= m < |bars| && GapBefore(bars, startTime, 0, m) ==> bars[m] !in s.cursor.emitted
  {
    hide Reachable, Pass;
    var bars := AllBars(chunks);
    AllBarsSpread(chunks, startTime, endTime);
    var s0 := AllWaiting(chunks, startTime, endTime, zeroTime);
    s := PassAll(chunks, startTime, endTime, zeroTime, s0);
    ghost var empties := s.empties;
    forall t | startTime <= t < endTime && !Present(bars, t) ensures t in empties {
      var k := AbsentHasReport(chunks, startTime, endTime, t);
    }
    assert bars[0] in bars;
    PassLoses(s0.cursor, bars, startTime, endTime, 0, s.empties);
    assert s.cursor.emitted[0..] == s.cursor.emitted;
    if !s.done {
      BetweenIsAbsent(bars, startTime, endTime, |bars|, s.cursor.required);
      var c := s.cursor;
      s := PassAll(chunks, startTime, endTime, zeroTime, s);
      PassEnds(c, bars, startTime, endTime, 0, s.empties);
    }
  }

  /** Every candle that was fetched has been replayed. */
  ghost predicate ReplayedAll(chunks: seq<Chunk>, s: Sys) {
    forall bar :: bar in AllBars(chunks) ==> bar in s.cursor.emitted
  }

  /** Every interleaving that finishes replays every candle held if and only if no candle is held for
      a minute after one that has none. */
  lemma {:induction false} ReplayedIffNoGapFollowed(chunks: seq<Chunk>, startTime: int, endTime: int, zeroTime: int)
    requires Held(chunks, startTime, endTime) && zeroTime < startTime
    ensures (forall s :: Reachable(chunks, startTime, endTime, zeroTime, s) && s.done ==> ReplayedAll(chunks, s))
       <==> !GapFollowed(AllBars(chunks), startTime)
  {
    var bars := AllBars(chunks);
    AllBarsSpread(chunks, startTime, endTime);
    if GapFollowed(bars, startTime) {
      var m := FirstAfterGap(bars, startTime, endTime);
      var s := LosesAfterGaps(chunks, startTime, endTime, zeroTime);
      assert bars[m] in bars && bars[m] !in s.cursor.emitted;
    } else {
      forall s | Reachable(chunks, startTime, endTime, zeroTime, s) && s.done ensures ReplayedAll(chunks, s) {
        KeptUpAtTheEnd(chunks, startTime, endTime, zeroTime, s);
      }
    }
  }

  lemma {:induction false} KeptUpAtTheEnd(chunks: seq<Chunk>, startTime: int, endTime: int, zeroTime: int, s: Sys)
    requires Held(chunks, startTime, endTime) && zeroTime < startTime && !GapFollowed(AllBars(chunks), startTime)
    requires Reachable(chunks, startTime, endTime, zeroTime, s) && s.done
    ensures s.cursor.emitted == AllBars(chunks)
  {
    hide Held, BeyondAll, Taken, GapFollowed;
    var bars := AllBars(chunks);
    var ss, steps :| IsExecution(chunks, startTime, endTime, zeroTime, ss, steps) && ss[|ss| - 1] == s;
    ExecutionKeepsUp(chunks, startTime, endTime, zeroTime, ss, steps, |ss| - 1);
    AllBarsSpread(chunks, startTime, endTime);
    AllKeptUp(bars, startTime, endTime, s.cursor);
  }

  lemma {:induction false} AllKeptUp(bars: seq<Bar>, startTime: int, endTime: int, c: Cursor)
    requires Spread(bars, startTime, endTime) && !GapFollowed(bars, startTime)
    requires KeepsUp(c, bars, startTime) && c.required == endTime
    ensures c.emitted == bars
  {
    if |bars| > 0 {
      BarsAreAPrefix(bars, startTime, endTime, |bars| - 1);
    }
    assert bars[..|bars|] == bars;
  }

  // ---------- whole windows can be lost ----------

  /** Only the first chunk has arrived, and the replay is not over. */
  ghost predicate FirstOnly(chunks: seq<Chunk>, s: Sys) {
    && |s.routines| == |chunks| >= 2 && s.routines[0].written
        && (forall k :: 1 <= k < |chunks| ==> !s.routines[k].written)
    && !s.pending && !s.done && !s.cursor.stuck
  }

  /** A report of the second chunk is received, and a pass made over the first. */
  lemma {:induction false} SendAndPass(chunks: seq<Chunk>, startTime: int, endTime: int, zeroTime: int, s: Sys)
    returns (s': Sys)
    requires Reachable(chunks, startTime, endTime, zeroTime, s) && FirstOnly(chunks, s)
    requires s.routines[1].sent < |ReportsOf(chunks[1])|
    ensures Reachable(chunks, startTime, endTime, zeroTime, s') && |s'.routines| == |chunks|
    ensures s'.routines == s.routines[1 := s.routines[1].(sent := s.routines[1].sent + 1)] && !s'.pending
    ensures s'.empties == s.empties + {ReportsOf(chunks[1])[s.routines[1].sent]}
    ensures s'.cursor == Pass(s.cursor, chunks[0].bars, 0, s'.empties, endTime)
    ensures s'.done <==> s'.cursor.required == endTime && !s'.cursor.stuck
  {
    hide Reachable, Pass, ReportsOf;
    var m := Next(chunks, endTime, zeroTime, s, Send(1));
    ReachNext(chunks, startTime, endTime, zeroTime, s, Send(1));
    OnlyFirstArrived(chunks, m.routines, |chunks|);
    s' := Next(chunks, endTime, zeroTime, m, RunPass);
    ReachNext(chunks, startTime, endTime, zeroTime, m, RunPass);
  }

  /** When the first window is complete and has arrived, two reports of the second window are enough to
      end the replay: every later candle is lost. */
  lemma {:induction false} LaterWindowsLost(chunks: seq<Chunk>, startTime: int, endTime: int, zeroTime: int)
    returns (s: Sys)
    requires Held(chunks, startTime, endTime) && |chunks| >= 2
    requires ReportsOf(chunks[0]) == [] && |ReportsOf(chunks[1])| >= 2 && ReportsOf(chunks[1])[0] == chunks[1].window.s
    ensures Reachable(chunks, startTime, endTime, zeroTime, s) && s.done && s.cursor.emitted == chunks[0].bars
  {
    hide Reachable, Pass, ReportsOf, Held;
    var bars := chunks[0].bars;
    FirstWindowComplete(chunks, startTime, endTime);
    ReachStart(chunks, startTime, endTime, zeroTime);
    ReachNext(chunks, startTime, endTime, zeroTime, Start(chunks, startTime), Write(0));
    s := Next(chunks, endTime, zeroTime, Start(chunks, startTime), Write(0));
    var c0 := s.cursor;
    s := SendAndPass(chunks, startTime, endTime, zeroTime, s);
    PassTakesAll(c0, bars, 0, s.empties, endTime);
    assert bars[0..] == bars && [] + bars == bars;
    var c := s.cursor;
    s := SendAndPass(chunks, startTime, endTime, zeroTime, s);
    PassEnds(c, bars, startTime, endTime, 0, s.empties);
  }

  lemma {:induction false} FirstWindowComplete(chunks: seq<Chunk>, startTime: int, endTime: int)
    requires Held(chunks, startTime, endTime) && |chunks| >= 2 && ReportsOf(chunks[0]) == []
    ensures EveryMinute(chunks[0].bars, startTime, chunks[1].window.s) && Spread(chunks[0].bars, startTime, endTime)
    ensures startTime < chunks[1].window.s < endTime
  {
    var w0, w1 := Windows(startTime, endTime, CHUNK_SIZE)[0], Windows(startTime, endTime, CHUNK_SIZE)[1];
    assert HeldChunk(chunks[0], w0) && HeldChunk(chunks[1], w1);
    WindowsPartition(startTime, endTime, CHUNK_SIZE);
    WindowEnds(startTime, endTime, 1);
    SilentIffComplete(chunks[0].bars, w0.s, w0.e);
    CompleteIsEveryMinute(chunks[0].bars, w0.s, w0.e);
  }

  lemma {:induction false} OnlyFirstArrived(chunks: seq<Chunk>, routines: seq<Routine>, n: nat)
    requires 1 <= n <= |chunks| == |routines| && routines[0].written && forall k :: 1 <= k < n ==> !routines[k].written
    ensures Arrived(chunks[..n], routines[..n]) == chunks[0].bars
    ensures n == |chunks| ==> Arrived(chunks, routines) == chunks[0].bars
  {
    assert n == |chunks| ==> chunks[..n] == chunks && routines[..n] == routines;
    assert chunks[..n][..n - 1] == chunks[..n - 1] && routines[..n][..n - 1] == routines[..n - 1];
    if n > 1 {
      OnlyFirstArrived(chunks, routines, n - 1);
    } else {
      assert Arrived(chunks[..0], routines[..0]) == [];
    }
  }

  /** Two windows of 100 minutes, the first complete, the second with its last minute only: an
      interleaving of five steps finishes without that candle. */
  lemma {:induction false} LastCandleLost(c: Candle) returns (chunks: seq<Chunk>, s: Sys)
    ensures Held(chunks, 1, 201) && GapFollowed(AllBars(chunks), 1)
    ensures Reachable(chunks, 1, 201, 0, s) && s.done && AllBars(chunks) == s.cursor.emitted + [Bar(200, 201, c)]
  {
    var first := seq(100, i => Bar(i + 1, i + 2, c));
    var second := [Bar(200, 201, c)];
    chunks := [Chunk(Window(1, 101), first), Chunk(Window(101, 201), second)];
    assert Windows(201, 201, CHUNK_SIZE) == [] && Windows(101, 201, CHUNK_SIZE) == [Window(101, 201)];
    assert HeldChunk(chunks[0], Window(1, 101)) && HeldChunk(chunks[1], Window(101, 201));
    assert Leading(second, 101, 0) == 0;
    RangeIs(101, 200);
    s := LaterWindowsLost(chunks, 1, 201, 0);
    TwoChunks(chunks);
    var all := AllBars(chunks);
    assert all[100] == Bar(200, 201, c);
    assert FollowsGap(all, 1, 100, 101);
  }

  lemma {:induction false} TwoChunks(chunks: seq<Chunk>)
    requires |chunks| == 2
    ensures AllBars(chunks) == chunks[0].bars + chunks[1].bars
  {
    assert chunks[..1][..0] == [] && AllBars(chunks[..1]) == AllBars([]) + chunks[0].bars;
  }

  // ---------- a gap reported in part ----------

  lemma {:induction false} SkipsTo(required: int, n: int, start: int, empties: set<int>)
    requires required < n < start && forall t :: t in empties <==> 0 <= t < n
    requires 0 <= required
    ensures SkipGap(required, start, empties) == (n - 1, true)
    decreases n - required
  {
    if required == n - 1 {
    } else {
      SkipsTo(required + 1, n, start, empties);
    }
  }

  /** The second of two windows has arrived, n reports of the first have been received, each followed by a pass, and
      the cursor waits on the last minute reported. */
  ghost predicate WaitsInGap(chunks: seq<Chunk>, s: Sys, n: nat) {
    && |chunks| == |s.routines| == 2 && s.routines[0] == Routine(n, false) && s.routines[1] == Routine(0, true)
    && !s.closed && !s.pending && !s.done && (forall t :: t in s.empties <==> 0 <= t < n)
    && s.cursor == Cursor(if n == 0 then 0 else n - 1, [], false)
  }

  /** Two windows of 100 minutes, the first without its first minute, the second complete. */
  ghost predicate FirstMinuteMissing(chunks: seq<Chunk>) {
    && |chunks| == 2 && chunks[0].window == Window(0, 100) && chunks[1].window == Window(100, 200)
    && |chunks[0].bars| == 99
    && (forall i :: 0 <= i < 99 ==> chunks[0].bars[i].start == i + 1 && chunks[0].bars[i].end == i + 2)
    && |chunks[1].bars| == 100
    && (forall i :: 0 <= i < 100 ==> chunks[1].bars[i].start == 100 + i && chunks[1].bars[i].end == 101 + i)
  }

  lemma {:induction false} FirstMinuteReports(chunks: seq<Chunk>)
    requires FirstMinuteMissing(chunks)
    ensures Held(chunks, 0, 200) && ReportsOf(chunks[1]) == []
    ensures |ReportsOf(chunks[0])| == 99 && forall i :: 0 <= i < 99 ==> ReportsOf(chunks[0])[i] == i
  {
    assert Windows(200, 200, CHUNK_SIZE) == [] && Windows(100, 200, CHUNK_SIZE) == [Window(100, 200)];
    assert HeldChunk(chunks[0], Window(0, 100)) && HeldChunk(chunks[1], Window(100, 200));
    assert Leading(chunks[0].bars, 0, 0) == 0;
    RangeIs(0, 99);
  }

  lemma {:induction false} OnlySecondArrived(chunks: seq<Chunk>, routines: seq<Routine>)
    requires |chunks| == |routines| == 2 && !routines[0].written && routines[1].written
    ensures Arrived(chunks, routines) == chunks[1].bars
  {
    NothingArrived(chunks[..1], routines[..1]);
  }

  lemma {:induction false} OneMoreReport(chunks: seq<Chunk>, s: Sys, n: nat) returns (s': Sys)
    requires FirstMinuteMissing(chunks) && WaitsInGap(chunks, s, n) && n < 99 && Reachable(chunks, 0, 200, -1, s)
    ensures WaitsInGap(chunks, s', n + 1) && Reachable(chunks, 0, 200, -1, s')
  {
    hide Reachable, ReportsOf, FirstMinuteMissing, WaitsInGap, Next, Enabled;
    var m := ReportSent(chunks, s, n);
    ReachNext(chunks, 0, 200, -1, s, Send(0));
    s' := Next(chunks, 200, -1, m, RunPass);
    ReachNext(chunks, 0, 200, -1, m, RunPass);
    PassMade(chunks, m, n);
  }

  /** The n + 1st report has been received, and the pass after it is due. */
  ghost predicate PassDue(chunks: seq<Chunk>, m: Sys, n: nat) {
    && |chunks| == |m.routines| == 2 && m.routines[0] == Routine(n + 1, false) && m.routines[1] == Routine(0, true)
    && !m.closed && m.pending && !m.done && (forall t :: t in m.empties <==> 0 <= t < n + 1)
    && m.cursor == Cursor(if n == 0 then 0 else n - 1, [], false)
  }

  lemma {:induction false} ReportSent(chunks: seq<Chunk>, s: Sys, n: nat) returns (m: Sys)
    requires FirstMinuteMissing(chunks) && WaitsInGap(chunks, s, n) && n < 99
    ensures |chunks| == |s.routines| == |m.routines| && Enabled(chunks, s, Send(0)) && Enabled(chunks, m, RunPass)
    ensures m == Next(chunks, 200, -1, s, Send(0)) && PassDue(chunks, m, n)
  {
    hide ReportsOf, FirstMinuteMissing, Pass, Arrived;
    FirstMinuteReports(chunks);
    m := Next(chunks, 200, -1, s, Send(0));
  }

  lemma {:induction false} PassMade(chunks: seq<Chunk>, m: Sys, n: nat)
    requires FirstMinuteMissing(chunks) && PassDue(chunks, m, n) && n < 99
    ensures WaitsInGap(chunks, Next(chunks, 200, -1, m, RunPass), n + 1)
  {
    hide ReportsOf, FirstMinuteMissing, Pass, Arrived;
    OnlySecondArrived(chunks, m.routines);
    WaitingPass(chunks, m.cursor, m.empties, n);
  }

  lemma {:induction false} WaitingPass(chunks: seq<Chunk>, c: Cursor, empties: set<int>, n: nat)
    requires FirstMinuteMissing(chunks) && n < 99 && c == Cursor(if n == 0 then 0 else n - 1, [], false)
    requires forall t :: t in empties <==> 0 <= t < n + 1
    ensures Pass(c, chunks[1].bars, 0, empties, 200) == Cursor(n, [], false)
  {
    if c.required == n {
      assert SkipGap(n, 100, empties) == (n, true);
    } else {
      SkipsTo(c.required, n + 1, 100, empties);
    }
  }

  /** After the 99 reports of the first window the cursor waits on minute 98, the last one reported although it has a
      candle: when the candles of that window arrive, those of minutes 98 and 99 are replayed and those before are
      lost. */
  lemma {:induction false} WaitsOnLastReported(c: Candle) returns (chunks: seq<Chunk>, s: Sys)
    ensures FirstMinuteMissing(chunks) && Held(chunks, 0, 200)
    ensures Reachable(chunks, 0, 200, -1, s) && s.done && s.cursor.emitted == AllBars(chunks)[97..]
  {
    hide Reachable, ReportsOf, Pass;
    var first, second := seq(99, i => Bar(i + 1, i + 2, c)), seq(100, i => Bar(i + 100, i + 101, c));
    chunks := [Chunk(Window(0, 100), first), Chunk(Window(100, 200), second)];
    FirstMinuteReports(chunks);
    ReachStart(chunks, 0, 200, -1);
    ReachNext(chunks, 0, 200, -1, Start(chunks, 0), Write(1));
    s := Next(chunks, 200, -1, Start(chunks, 0), Write(1));
    var n := 0;
    while n < 99
      invariant 0 <= n <= 99 && WaitsInGap(chunks, s, n) && Reachable(chunks, 0, 200, -1, s)
    {
      s := OneMoreReport(chunks, s, n);
      n := n + 1;
    }
    ReachNext(chunks, 0, 200, -1, s, Write(0));
    s := Next(chunks, 200, -1, s, Write(0));
    ReachNext(chunks, 0, 200, -1, s, Close);
    s := Next(chunks, 200, -1, s, Close);
    var cursor := s.cursor;
    s := PassAll(chunks, 0, 200, -1, s);
    TwoChunks(chunks);
    PassFrom98(cursor, AllBars(chunks), s.empties);
  }

  lemma {:induction false} PassFrom98(c: Cursor, bars: seq<Bar>, empties: set<int>)
    requires c == Cursor(98, [], false) && |bars| == 199 && forall i :: 0 <= i < 199 ==> bars[i].start == i + 1
    ensures Pass(c, bars, 0, empties, 200) == Cursor(200, bars[97..], false)
  {
    PassesBy(c, bars, 0, empties);
    PassTakesAll(c, bars, 97, empties, 200);
  }

  /** Bars before the cursor, none of them the last, are passed by. */
  lemma {:induction false} PassesBy(c: Cursor, bars: seq<Bar>, n: nat, empties: set<int>)
    requires c == Cursor(98, [], false) && |bars| == 199 && forall i :: 0 <= i < 199 ==> bars[i].start == i + 1
    requires n <= 97
    ensures Pass(c, bars, n, empties, 200) == Pass(c, bars, 97, empties, 200)
    decreases 97 - n
  {
    if n == 97 {
    } else {
      assert bars[n].start != bars[198].start;
      PassesBy(c, bars, n + 1, empties);
    }
  }
}
