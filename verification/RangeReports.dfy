/** What the reports of a whole range name: a chunk judges its minutes by its own candles, but the minute it
    reports past its window belongs to the next chunk. */
module RangeReports {
  import opened Records
  import opened ChunkGaps
  import opened Pipeline
  import opened GapReplay

  /** No report of any chunk names a minute that some chunk holds a candle for. */
  ghost predicate ReportsAbsentOnly(chunks: seq<Chunk>) {
    forall k :: 0 <= k < |chunks| ==> ChunkReportsAbsentOnly(chunks[k], AllBars(chunks))
  }

  ghost predicate ChunkReportsAbsentOnly(c: Chunk, all: seq<Bar>) {
    forall t :: t in ReportsOf(c) ==> !Present(all, t)
  }

  /** No candle of the chunk follows its first gap, and the chunk is empty or complete or the minute after its
      window is absent too; or the only candle after the first gap is that of the window's last minute. */
  predicate GapsAtEnd(c: Chunk, all: seq<Bar>) {
    var n := Leading(c.bars, c.window.s, 0);
    || (n == |c.bars| && (c.bars == [] || c.window.s + n == c.window.e || !Present(all, c.window.e)))
    || (n + 1 == |c.bars| && c.bars[n].start + 1 == c.window.e)
  }

  /** Only the last window can be shorter than a full chunk. */
  lemma {:induction false} ShortIsLast(startTime: int, endTime: int, k: nat)
    requires startTime <= endTime && k < |Windows(startTime, endTime, CHUNK_SIZE)|
    ensures var w := Windows(startTime, endTime, CHUNK_SIZE)[k]; w.e == w.s + CHUNK_SIZE || w.e == endTime
    decreases endTime - startTime
  {
    if k == 0 {
    } else {
      var e := if startTime + CHUNK_SIZE > endTime then endTime else startTime + CHUNK_SIZE;
      ShortIsLast(e, endTime, k - 1);
    }
  }

  /** Which minutes from the end of its window on a chunk reports. */
  lemma {:induction false} ReportsPastEnd(c: Chunk, w: Window, t: int)
    requires HeldChunk(c, w) && t >= w.e
    ensures t in ReportsOf(c) <==>
              if |c.bars| == 0 then t < w.s + CHUNK_SIZE
              else t == w.e && |c.bars| != CHUNK_SIZE && c.bars[|c.bars| - 1].start + 1 != w.e
  {
    var n, r := Leading(c.bars, w.s, 0), ReportsOf(c);
    FirstAbsent(c.bars, w.s, w.e);
    RangeIs(w.s, w.s + CHUNK_SIZE);
    RangeIs(w.s + n, w.e + 1);
    if |c.bars| == 0 {
      assert t < w.s + CHUNK_SIZE ==> r[t - w.s] == t;
    } else if |c.bars| != CHUNK_SIZE {
      RangeIs(w.s + n, c.bars[|c.bars| - 1].start);
      assert t == w.e && c.bars[|c.bars| - 1].start + 1 != w.e ==> r[t - (w.s + n)] == t;
    }
  }

  /** Inside its window a chunk reports absent minutes only exactly as ChunkGaps says. */
  lemma {:induction false} InsideIff(chunks: seq<Chunk>, startTime: int, endTime: int, k: nat)
    requires Held(chunks, startTime, endTime) && k < |chunks|
    ensures var c := chunks[k];
            (forall t :: t in ReportsOf(c) && t < c.window.e ==> !Present(AllBars(chunks), t))
            <==> OnlyAbsent(c.bars, c.window.s, c.window.e)
  {
    hide Held, Leading;
    HeldIs(chunks, startTime, endTime, k);
    var c, w := chunks[k], Windows(startTime, endTime, CHUNK_SIZE)[k];
    forall t | t in ReportsOf(c) && t < w.e ensures Present(AllBars(chunks), t) <==> Present(c.bars, t) {
      var first := ReportsStartAbsent(c, w, t);
      PresentInChunk(chunks, startTime, endTime, k, t);
    }
    forall t | t >= w.e ensures !Present(c.bars, t) {
    }
  }

  lemma {:induction false} HeldIs(chunks: seq<Chunk>, startTime: int, endTime: int, k: nat)
    requires Held(chunks, startTime, endTime) && k < |chunks|
    ensures startTime <= endTime && |chunks| == |Windows(startTime, endTime, CHUNK_SIZE)|
    ensures HeldChunk(chunks[k], Windows(startTime, endTime, CHUNK_SIZE)[k])
  {
  }

  lemma {:induction false} NothingPastRange(chunks: seq<Chunk>, startTime: int, endTime: int, t: int)
    requires Held(chunks, startTime, endTime) && t >= endTime
    ensures !Present(AllBars(chunks), t)
  {
    AllBarsSpread(chunks, startTime, endTime);
  }

  /** Past its window a chunk reports a minute that has a candle exactly if it is the next one, the last
      minute of the window being absent and the chunk not empty. */
  lemma {:induction false} OutsideIff(chunks: seq<Chunk>, startTime: int, endTime: int, k: nat)
    requires Held(chunks, startTime, endTime) && k < |chunks|
    ensures var c := chunks[k];
            (forall t :: t in ReportsOf(c) && t >= c.window.e ==> !Present(AllBars(chunks), t))
            <==> || |c.bars| == 0 || |c.bars| == CHUNK_SIZE || c.bars[|c.bars| - 1].start + 1 == c.window.e
                 || !Present(AllBars(chunks), c.window.e)
  {
    hide Held, ReportsOf, AllBars;
    HeldIs(chunks, startTime, endTime, k);
    var c, w := chunks[k], Windows(startTime, endTime, CHUNK_SIZE)[k];
    ShortIsLast(startTime, endTime, k);
    ReportsPastEnd(c, w, w.e);
    forall t | t in ReportsOf(c) && t >= w.e ensures t == w.e || !Present(AllBars(chunks), t) {
      ReportsPastEnd(c, w, t);
      if t != w.e {
        NothingPastRange(chunks, startTime, endTime, t);
      }
    }
    if |c.bars| == 0 && w.e == endTime {
      NothingPastRange(chunks, startTime, endTime, w.e);
    }
  }

  lemma {:induction false} ChunkIff(chunks: seq<Chunk>, startTime: int, endTime: int, k: nat)
    requires Held(chunks, startTime, endTime) && k < |chunks|
    ensures ChunkReportsAbsentOnly(chunks[k], AllBars(chunks)) <==> GapsAtEnd(chunks[k], AllBars(chunks))
  {
    hide Held, ReportsOf, AllBars, Present, OnlyAbsent, Leading;
    var c, all := chunks[k], AllBars(chunks);
    var w, n := c.window, Leading(c.bars, c.window.s, 0);
    HeldIs(chunks, startTime, endTime, k);
    InsideIff(chunks, startTime, endTime, k);
    OutsideIff(chunks, startTime, endTime, k);
    OnlyAbsentIff(c.bars, w.s, w.e);
    assert ChunkReportsAbsentOnly(c, all)
      <==> && (forall t :: t in ReportsOf(c) && t < w.e ==> !Present(all, t))
           && (forall t :: t in ReportsOf(c) && t >= w.e ==> !Present(all, t));
    if |c.bars| == CHUNK_SIZE {
      FullChunk(c.bars, w.s, w.e);
    } else if |c.bars| > 0 && n == |c.bars| {
      EndsAt(c.bars, w.s, w.e);
    }
  }

  lemma {:induction false} EndsAt(bars: seq<Bar>, s: int, e: int)
    requires InWindow(bars, s, e) && |bars| > 0 && Leading(bars, s, 0) == |bars|
    ensures bars[|bars| - 1].start + 1 == s + |bars|
  {
    StartAtLeast(bars, s, e, |bars| - 1);
  }

  /** The reports of a range name minutes without a candle only if and only if every chunk has its gaps at the
      end, as GapsAtEnd says. */
  lemma {:induction false} ReportsAbsentOnlyIff(chunks: seq<Chunk>, startTime: int, endTime: int)
    requires Held(chunks, startTime, endTime)
    ensures ReportsAbsentOnly(chunks) <==> forall k :: 0 <= k < |chunks| ==> GapsAtEnd(chunks[k], AllBars(chunks))
  {
    hide Held, ChunkReportsAbsentOnly, GapsAtEnd;
    forall k | 0 <= k < |chunks|
      ensures ChunkReportsAbsentOnly(chunks[k], AllBars(chunks)) <==> GapsAtEnd(chunks[k], AllBars(chunks))
    {
      ChunkIff(chunks, startTime, endTime, k);
    }
  }

  // ---------- what the loop hears ----------

  /** Every minute remembered as missing has no candle, the zero time of the closed channel apart. */
  ghost predicate HeardAbsentOnly(chunks: seq<Chunk>, zeroTime: int, s: Sys) {
    forall t :: t in s.empties ==> t == zeroTime || !Present(AllBars(chunks), t)
  }

  lemma {:induction false} HearsReports(chunks: seq<Chunk>, startTime: int, endTime: int, zeroTime: int,
                                        ss: seq<Sys>, steps: seq<Step>, n: nat)
    requires IsExecution(chunks, startTime, endTime, zeroTime, ss, steps) && n < |ss| && ReportsAbsentOnly(chunks)
    ensures HeardAbsentOnly(chunks, zeroTime, ss[n])
  {
    hide ReportsOf, AllBars, Present;
    if n == 0 {
    } else {
      HearsReports(chunks, startTime, endTime, zeroTime, ss, steps, n - 1);
      assert Taken(chunks, endTime, zeroTime, ss, steps, n - 1);
      var step := steps[n - 1];
      if step.Send? {
        assert ChunkReportsAbsentOnly(chunks[step.k], AllBars(chunks));
      }
    }
  }

  /** Over all interleavings, only minutes without a candle are ever remembered as missing if and only if every
      chunk has its gaps at the end. */
  lemma {:induction false} HeardAbsentOnlyIff(chunks: seq<Chunk>, startTime: int, endTime: int, zeroTime: int)
    requires Held(chunks, startTime, endTime) && zeroTime < startTime
    ensures (forall s :: Reachable(chunks, startTime, endTime, zeroTime, s) ==> HeardAbsentOnly(chunks, zeroTime, s))
       <==> forall k :: 0 <= k < |chunks| ==> GapsAtEnd(chunks[k], AllBars(chunks))
  {
    hide Held, GapsAtEnd, ReportsOf, AllBars, Present;
    ReportsAbsentOnlyIff(chunks, startTime, endTime);
    if ReportsAbsentOnly(chunks) {
      forall s | Reachable(chunks, startTime, endTime, zeroTime, s) ensures HeardAbsentOnly(chunks, zeroTime, s) {
        var ss, steps :| IsExecution(chunks, startTime, endTime, zeroTime, ss, steps) && ss[|ss| - 1] == s;
        HearsReports(chunks, startTime, endTime, zeroTime, ss, steps, |ss| - 1);
      }
    } else {
      var k :| 0 <= k < |chunks| && !ChunkReportsAbsentOnly(chunks[k], AllBars(chunks));
      var t :| t in ReportsOf(chunks[k]) && Present(AllBars(chunks), t);
      PresentInRange(chunks, startTime, endTime, t);
      var s := AllWaiting(chunks, startTime, endTime, zeroTime);
      assert t in s.empties && t != zeroTime;
    }
  }

  lemma {:induction false} PresentInRange(chunks: seq<Chunk>, startTime: int, endTime: int, t: int)
    requires Held(chunks, startTime, endTime) && Present(AllBars(chunks), t)
    ensures startTime <= t < endTime
  {
    AllBarsSpread(chunks, startTime, endTime);
  }

  /** Two windows of 100 minutes, the first without its last minute, the second complete: each chunk by itself
      reports absent minutes only, yet the first also reports the first minute of the second. */
  lemma {:induction false} NextWindowReported(c: Candle) returns (chunks: seq<Chunk>)
    ensures Held(chunks, 1, 201) && |chunks| == 2
    ensures forall k :: 0 <= k < 2 ==> OnlyAbsent(chunks[k].bars, chunks[k].window.s, chunks[k].window.e)
    ensures ReportsOf(chunks[0]) == [100, 101] && Present(AllBars(chunks), 101)
  {
    var first, second := seq(99, i => Bar(i + 1, i + 2, c)), seq(100, i => Bar(i + 101, i + 102, c));
    chunks := [Chunk(Window(1, 101), first), Chunk(Window(101, 201), second)];
    assert Windows(201, 201, CHUNK_SIZE) == [] && Windows(101, 201, CHUNK_SIZE) == [Window(101, 201)];
    assert HeldChunk(chunks[0], Window(1, 101)) && HeldChunk(chunks[1], Window(101, 201));
    LeadingIs(first, 1, 0);
    StartAtLeast(first, 1, 101, 98);
    FullChunk(second, 101, 201);
    OnlyAbsentIff(first, 1, 101);
    OnlyAbsentIff(second, 101, 201);
    RangeIs(100, 102);
    TwoChunks(chunks);
    assert AllBars(chunks)[99] == second[0];
  }
}
