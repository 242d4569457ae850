/** getChunkCandleDataAll (chartmaster_helpers.go): which minutes of a chunk it reports as missing.
    Times are minutes. */
module ChunkGaps {
  import opened Records

  const CHUNK_SIZE := 100

  /** A one-minute candle with its period. */
  datatype Bar = Bar(start: int, end: int, candle: Candle)

  /** The minutes a .. b - 1. */
  function Range(a: int, b: int): seq<int>
    decreases b - a
  {
    if a < b then Range(a, b - 1) + [b - 1] else []
  }

  lemma {:induction false} RangeIs(a: int, b: int)
    ensures |Range(a, b)| == if a < b then b - a else 0
    ensures forall i :: 0 <= i < |Range(a, b)| ==> Range(a, b)[i] == a + i
    decreases b - a
  {
    if a >= b {
    } else {
      RangeIs(a, b - 1);
    }
  }

  lemma {:induction false} RangeJoins(a: int, b: int, c: int)
    requires a <= b <= c
    ensures Range(a, b) + Range(b, c) == Range(a, c)
    decreases c - b
  {
    if b == c {
    } else {
      RangeJoins(a, b, c - 1);
      assert Range(a, b) + Range(b, c) == (Range(a, b) + Range(b, c - 1)) + [c - 1];
    }
  }

  /** Sorted, distinct one-minute bars inside the window [s, e) of at most 100 minutes. */
  ghost predicate InWindow(chunk: seq<Bar>, s: int, e: int) {
    && s < e <= s + CHUNK_SIZE
    && (forall i :: 0 <= i < |chunk| ==> s <= chunk[i].start < e && chunk[i].end == chunk[i].start + 1)
    && (forall i, j :: 0 <= i < j < |chunk| ==> chunk[i].start < chunk[j].start)
  }

  predicate Present(chunk: seq<Bar>, t: int) {
    exists i :: 0 <= i < |chunk| && chunk[i].start == t
  }

  /** How many bars from n on sit exactly on their minute, so that s + Leading is the first
      absent minute. */
  function Leading(chunk: seq<Bar>, s: int, n: nat): (k: nat)
    requires n <= |chunk|
    ensures n <= k <= |chunk|
    decreases |chunk| - n
  {
    if n < |chunk| && chunk[n].start == s + n then Leading(chunk, s, n + 1) else n
  }

  /** The minutes sent on the channel, in order: all from the first absent one on, present or
      not, and past the window's end when its last minute is absent. */
  function Reports(chunk: seq<Bar>, s: int, e: int): seq<int> {
    if |chunk| == 0 then Range(s, s + CHUNK_SIZE)
    else if |chunk| == CHUNK_SIZE then []
    else
      var first, last := s + Leading(chunk, s, 0), chunk[|chunk| - 1].start;
      if last + 1 == e then Range(first, last) else Range(first, e + 1)
  }

  /** Reports the minutes before a bar and leaves the cursor one minute behind it. */
  method CatchUp(sent0: seq<int>, eachTime0: int, start: int, fetchCandlesEnd: int)
    returns (sent: seq<int>, eachTime: int)
    requires eachTime0 < start
    ensures sent == sent0 + Range(eachTime0, start) && eachTime == start - 1
  {
    eachTime := eachTime0;
    sent := sent0 + [eachTime];
    while true
      invariant eachTime0 <= eachTime < start && sent == sent0 + Range(eachTime0, eachTime + 1)
      decreases start - eachTime
    {
      eachTime := eachTime + 1;
      if start != eachTime {
        sent := sent + [eachTime];
      } else if fetchCandlesEnd == eachTime {
        eachTime := eachTime - 1;
        break;
      } else {
        eachTime := eachTime - 1;
        break;
      }
    }
  }

  /** Reports the minutes after the cursor up to the end of the window and the one past it. */
  method ReportTail(sent0: seq<int>, eachTime0: int, fetchCandlesEnd: int) returns (sent: seq<int>, eachTime: int)
    requires eachTime0 < fetchCandlesEnd
    ensures sent == sent0 + Range(eachTime0 + 1, fetchCandlesEnd + 1) && eachTime == fetchCandlesEnd
  {
    eachTime := eachTime0;
    sent := sent0;
    while true
      invariant eachTime0 <= eachTime < fetchCandlesEnd && sent == sent0 + Range(eachTime0 + 1, eachTime + 1)
      decreases fetchCandlesEnd - eachTime
    {
      eachTime := eachTime + 1;
      sent := sent + [eachTime];
      if eachTime == fetchCandlesEnd {
        break;
      }
    }
  }

  /** Where the cursor stands and what was sent after n bars, none of them the unfinished last. */
  ghost predicate After(chunk: seq<Bar>, s: int, n: nat, eachTime: int, sent: seq<int>)
    requires n <= |chunk|
  {
    var k := Leading(chunk, s, 0);
    if n <= k then eachTime == s + n && sent == []
    else eachTime == chunk[n - 1].start >= s + k && sent == Range(s + k, eachTime)
  }

  /** A chunk without candles: every minute of a full chunk is reported. */
  method ReportAll(fetchCandlesStart: int) returns (sent: seq<int>)
    ensures sent == Range(fetchCandlesStart, fetchCandlesStart + CHUNK_SIZE)
  {
    sent := [];
    var eachTime := fetchCandlesStart;
    var i := 0;
    while i < CHUNK_SIZE
      invariant 0 <= i <= CHUNK_SIZE && eachTime == fetchCandlesStart + i
      invariant sent == Range(fetchCandlesStart, eachTime)
    {
      sent := sent + [eachTime];
      eachTime := eachTime + 1;
      i := i + 1;
    }
  }

  /** The body of the loop over the candles. */
  method ExamineBar(chunk: seq<Bar>, fetchCandlesStart: int, fetchCandlesEnd: int, n: nat, sent0: seq<int>,
                    eachTime0: int)
    returns (sent: seq<int>, eachTime: int)
    requires InWindow(chunk, fetchCandlesStart, fetchCandlesEnd) && n < |chunk|
    requires After(chunk, fetchCandlesStart, n, eachTime0, sent0)
    ensures n < |chunk| - 1 || chunk[n].end == fetchCandlesEnd ==>
              After(chunk, fetchCandlesStart, n + 1, eachTime, sent)
    ensures n == |chunk| - 1 && chunk[n].end != fetchCandlesEnd ==>
              sent == Range(fetchCandlesStart + Leading(chunk, fetchCandlesStart, 0), fetchCandlesEnd + 1)
  {
    var candle, last := chunk[n], chunk[|chunk| - 1];
    ghost var k := Leading(chunk, fetchCandlesStart, 0);
    ghost var first := fetchCandlesStart + k;
    sent, eachTime := sent0, eachTime0;
    StartAtLeast(chunk, fetchCandlesStart, fetchCandlesEnd, n);
    if candle.start != eachTime {
      assert n >= k && first <= eachTime < candle.start && sent == Range(first, eachTime);
      RangeJoins(first, eachTime, candle.start);
      sent, eachTime := CatchUp(sent, eachTime, candle.start, fetchCandlesEnd);
    }
    assert if n < k then sent == [] && eachTime == candle.start == fetchCandlesStart + n
           else sent == Range(first, candle.start) && eachTime == candle.start - 1 && first <= candle.start;
    if candle == last && candle.end != fetchCandlesEnd {
      assert n == |chunk| - 1 && sent == Range(first, eachTime + 1);
      RangeJoins(first, eachTime + 1, fetchCandlesEnd + 1);
      sent, eachTime := ReportTail(sent, eachTime, fetchCandlesEnd);
    }
    eachTime := eachTime + 1;
  }

  method ReportGaps(chunkCandles: seq<Bar>, fetchCandlesStart: int, fetchCandlesEnd: int) returns (sent: seq<int>)
    requires InWindow(chunkCandles, fetchCandlesStart, fetchCandlesEnd)
    ensures sent == Reports(chunkCandles, fetchCandlesStart, fetchCandlesEnd)
  {
    sent := [];
    if |chunkCandles| == 0 {
      sent := ReportAll(fetchCandlesStart);
    } else if |chunkCandles| != CHUNK_SIZE {
      StartAtLeast(chunkCandles, fetchCandlesStart, fetchCandlesEnd, |chunkCandles| - 1);
      ghost var first := fetchCandlesStart + Leading(chunkCandles, fetchCandlesStart, 0);
      var eachTime, n := fetchCandlesStart, 0;
      while n < |chunkCandles|
        invariant 0 <= n <= |chunkCandles|
        invariant n < |chunkCandles| || chunkCandles[n - 1].end == fetchCandlesEnd ==>
                    After(chunkCandles, fetchCandlesStart, n, eachTime, sent)
        invariant n == |chunkCandles| && chunkCandles[n - 1].end != fetchCandlesEnd ==>
            sent == Range(first, fetchCandlesEnd + 1)
      {
        sent, eachTime := ExamineBar(chunkCandles, fetchCandlesStart, fetchCandlesEnd, n, sent, eachTime);
        n := n + 1;
      }
    }
  }

  lemma {:induction false} LeadingIs(chunk: seq<Bar>, s: int, n: nat)
    requires n <= |chunk|
    ensures var k := Leading(chunk, s, n);
            && (forall i :: n <= i < k ==> chunk[i].start == s + i)
            && (k < |chunk| ==> chunk[k].start != s + k)
    decreases |chunk| - n
  {
    if n == |chunk| || chunk[n].start != s + n {
    } else {
      LeadingIs(chunk, s, n + 1);
    }
  }

  /** Bars before the first gap sit on their minute, later ones strictly after it. */
  lemma {:induction false} StartAtLeast(chunk: seq<Bar>, s: int, e: int, n: nat)
    requires InWindow(chunk, s, e) && n < |chunk|
    ensures if n < Leading(chunk, s, 0) then chunk[n].start == s + n else chunk[n].start > s + n
  {
    LeadingIs(chunk, s, 0);
    if n == 0 {
    } else {
      StartAtLeast(chunk, s, e, n - 1);
    }
  }

  // ---------- what the reports mean ----------

  /** The first minute after the leading bars is absent, if it is in the window. */
  lemma {:induction false} FirstAbsent(chunk: seq<Bar>, s: int, e: int)
    requires InWindow(chunk, s, e)
    ensures var g := s + Leading(chunk, s, 0);
            && g <= e && !Present(chunk, g)
            && forall t :: s <= t < g ==> Present(chunk, t)
  {
    var k := Leading(chunk, s, 0);
    LeadingIs(chunk, s, 0);
    if |chunk| > 0 {
      StartAtLeast(chunk, s, e, |chunk| - 1);
    }
    forall i | 0 <= i < |chunk| ensures chunk[i].start != s + k {
      StartAtLeast(chunk, s, e, i);
    }
    forall t | s <= t < s + k ensures Present(chunk, t) {
      assert chunk[t - s].start == t;
    }
  }

  /** A chunk of 100 bars in a window of 100 minutes has every minute. */
  lemma {:induction false} FullChunk(chunk: seq<Bar>, s: int, e: int)
    requires InWindow(chunk, s, e) && |chunk| == CHUNK_SIZE
    ensures e == s + CHUNK_SIZE && Leading(chunk, s, 0) == CHUNK_SIZE
  {
    StartAtLeast(chunk, s, e, CHUNK_SIZE - 1);
    FirstAbsent(chunk, s, e);
  }

  ghost predicate NoneAbsent(chunk: seq<Bar>, s: int, e: int) {
    forall t :: s <= t < e ==> Present(chunk, t)
  }

  /** Nothing is reported exactly when no minute is absent. */
  lemma {:induction false} SilentIffComplete(chunk: seq<Bar>, s: int, e: int)
    requires InWindow(chunk, s, e)
    ensures Reports(chunk, s, e) == [] <==> NoneAbsent(chunk, s, e)
  {
    FirstAbsent(chunk, s, e);
    var k := Leading(chunk, s, 0);
    if |chunk| == CHUNK_SIZE {
      FullChunk(chunk, s, e);
    } else if |chunk| > 0 {
      StartAtLeast(chunk, s, e, |chunk| - 1);
      LeadingIs(chunk, s, 0);
      RangeIs(s + k, chunk[|chunk| - 1].start);
      RangeIs(s + k, e + 1);
      if Reports(chunk, s, e) == [] {
        assert s + k >= chunk[|chunk| - 1].start && k == |chunk|;
      }
    } else {
      RangeIs(s, s + CHUNK_SIZE);
      assert !Present(chunk, s);
    }
  }

  /** Every absent minute is reported, and every report from the first absent minute on is the
      next minute: after a gap present minutes are reported too. */
  lemma {:induction false} AbsentIsReported(chunk: seq<Bar>, s: int, e: int, t: int)
    requires InWindow(chunk, s, e) && s <= t < e && !Present(chunk, t)
    ensures t in Reports(chunk, s, e)
    ensures var r := Reports(chunk, s, e); |r| > 0 && forall i :: 0 <= i < |r| ==> r[i] == s + Leading(chunk, s, 0) + i
  {
    FirstAbsent(chunk, s, e);
    var k, r := Leading(chunk, s, 0), Reports(chunk, s, e);
    if |chunk| == CHUNK_SIZE {
      FullChunk(chunk, s, e);
    }
    assert t >= s + k;
    if |chunk| > 0 && chunk[|chunk| - 1].start + 1 == e {
      assert Present(chunk, e - 1);
      RangeIs(s + k, e - 1);
    } else {
      RangeIs(s + k, e + 1);
    }
    RangeIs(s, s + CHUNK_SIZE);
    assert r[t - (s + k)] == t;
  }

  /** A complete chunk is one bar for each minute of its window. */
  lemma {:induction false} CompleteIsEveryMinute(chunk: seq<Bar>, s: int, e: int)
    requires InWindow(chunk, s, e) && NoneAbsent(chunk, s, e)
    ensures |chunk| == e - s && forall i :: 0 <= i < |chunk| ==> chunk[i].start == s + i
  {
    FirstAbsent(chunk, s, e);
    var k := Leading(chunk, s, 0);
    assert s + k == e;
    LeadingIs(chunk, s, 0);
    if k < |chunk| {
      StartAtLeast(chunk, s, e, |chunk| - 1);
    }
  }

  /** No minute that has a bar in this chunk is reported; what other chunks hold is the matter of RangeReports. */
  ghost predicate OnlyAbsent(chunk: seq<Bar>, s: int, e: int) {
    forall t :: t in Reports(chunk, s, e) ==> !Present(chunk, t)
  }

  /** The reports name absent minutes only exactly when no bar follows the first gap, or just the
      bar of the window's last minute. */
  lemma {:induction false} OnlyAbsentIff(chunk: seq<Bar>, s: int, e: int)
    requires InWindow(chunk, s, e)
    ensures var k := Leading(chunk, s, 0);
            OnlyAbsent(chunk, s, e) <==> k == |chunk| || (k + 1 == |chunk| && chunk[k].start + 1 == e)
  {
    var k, r := Leading(chunk, s, 0), Reports(chunk, s, e);
    LeadingIs(chunk, s, 0);
    if |chunk| == 0 {
    } else if |chunk| == CHUNK_SIZE {
      FullChunk(chunk, s, e);
    } else {
      var last := chunk[|chunk| - 1].start;
      RangeIs(s + k, last);
      RangeIs(s + k, e + 1);
      forall i | 0 <= i < |chunk| ensures i < k ==> chunk[i].start < s + k {
        StartAtLeast(chunk, s, e, i);
      }
      if k < |chunk| {
        StartAtLeast(chunk, s, e, k);
        var t := chunk[k].start;
        assert Present(chunk, t);
        if t < last || last + 1 != e {
          assert r[t - (s + k)] == t;
        }
      }
    }
  }

  /** Without the minute 1 of four, the present minute 2 is reported as well. */
  lemma {:induction false} PresentMinuteReported(c: Candle)
    ensures var chunk := [Bar(0, 1, c), Bar(2, 3, c), Bar(3, 4, c)];
            InWindow(chunk, 0, 4) && Reports(chunk, 0, 4) == [1, 2] && Present(chunk, 2)
  {
    var chunk := [Bar(0, 1, c), Bar(2, 3, c), Bar(3, 4, c)];
    assert chunk[1].start == 2;
    assert Leading(chunk, 0, 1) == 1 && Leading(chunk, 0, 0) == 1;
    RangeIs(1, 3);
  }
}
