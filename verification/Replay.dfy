/** The replay loop of computeBacktest in cached-or-fetched mode (chartmaster_helpers.go): one pass
    over the candles that have arrived, with a cursor of the next minute required. */
module Replay {
  import opened ChunkGaps

  /** The cursor and the bars given to the strategy so far; stuck when the loop that walks to the
      end time can no longer meet it. */
  datatype Cursor = Cursor(required: int, emitted: seq<Bar>, stuck: bool)

  /** Walks over reported minutes towards a bar: past the bar when it is reached, else back to the
      last reported minute, to wait for more messages. */
  function SkipGap(required: int, start: int, empties: set<int>): (int, bool)
    requires required < start
    decreases start - required
  {
    if required + 1 == start then (start + 1, false)
    else if required + 1 !in empties then (required, true)
    else SkipGap(required + 1, start, empties)
  }

  /** One bar of the pass: the cursor and whether the pass is abandoned. */
  function AtBar(c: Cursor, bar: Bar, last: Bar, empties: set<int>, endTime: int): (Cursor, bool) {
    if c.required == bar.start then
      (c.(required := c.required + 1, emitted := c.emitted + [bar]), false)
    else if c.required in empties then
      if c.required < bar.start then
        var r := SkipGap(c.required, bar.start, empties);
        (c.(required := r.0), r.1)
      else if bar == last && bar.end != endTime then
        (if c.required < endTime then c.(required := endTime) else c.(stuck := true), c.required >= endTime)
      else (c, false)
    else (c, false)
  }

  function Pass(c: Cursor, bars: seq<Bar>, n: nat, empties: set<int>, endTime: int): Cursor
    requires n <= |bars|
    decreases |bars| - n
  {
    if n == |bars| then c
    else
      var r := AtBar(c, bars[n], bars[|bars| - 1], empties, endTime);
      if r.1 then r.0 else Pass(r.0, bars, n + 1, empties, endTime)
  }

  /** An abandoned walk leaves the cursor on the last of the minutes reported without a break, the next one not being
      reported; a walk that arrives has found every minute before the bar reported, and leaves the bar behind. */
  lemma {:induction false} SkipGapWaits(required: int, start: int, empties: set<int>)
    requires required < start
    ensures var (r, again) := SkipGap(required, start, empties);
            if again
            then && required <= r && r + 1 < start && r + 1 !in empties
                 && forall t :: required < t <= r ==> t in empties
            else r == start + 1 && forall t :: required < t < start ==> t in empties
    decreases start - required
  {
    if required + 1 == start || required + 1 !in empties {
    } else {
      SkipGapWaits(required + 1, start, empties);
    }
  }

  /** What one bar does to a cursor that stands before it: the bar is taken when it is the one required; a reported
      minute is walked on from, past the bar if every minute before it is reported, and otherwise to the last minute
      before the first that is not, where the pass is abandoned; an unreported minute is waited for. */
  lemma {:induction false} AtBarBefore(c: Cursor, bar: Bar, last: Bar, empties: set<int>, endTime: int)
    requires c.required <= bar.start
    ensures var (d, again) := AtBar(c, bar, last, empties, endTime);
            if c.required == bar.start then d == Cursor(c.required + 1, c.emitted + [bar], c.stuck) && !again
            else if c.required !in empties then d == c && !again
            else && d == c.(required := d.required)
                 && (if again
                     then && c.required <= d.required && d.required + 1 < bar.start && d.required + 1 !in empties
                          && forall t :: c.required <= t <= d.required ==> t in empties
                     else d.required == bar.start + 1 && forall t :: c.required <= t < bar.start ==> t in empties)
  {
    if c.required in empties && c.required < bar.start {
      SkipGapWaits(c.required, bar.start, empties);
    }
  }

  /** What one bar does to a cursor that stands after it: nothing, unless the minute required is reported and the bar
      is the last to have arrived and not that of the range's end; then the cursor goes to the end time, or is stuck
      if it has come as far already. */
  lemma {:induction false} AtBarAfter(c: Cursor, bar: Bar, last: Bar, empties: set<int>, endTime: int)
    requires c.required > bar.start
    ensures var (d, again) := AtBar(c, bar, last, empties, endTime);
            if c.required in empties && bar == last && bar.end != endTime
            then if c.required < endTime then d == c.(required := endTime) && !again
                 else d == c.(stuck := true) && again
            else d == c && !again
  {
  }

  // ---------- the imperative form ----------

  /** What computeBacktest keeps between passes. */
  class Backtester {
    var requiredTime: int
    var allEmptyCandles: set<int>
    var emitted: seq<Bar>
    var stuck: bool

    constructor (startTime: int)
      ensures View() == Cursor(startTime, [], false) && allEmptyCandles == {}
    {
      requiredTime, allEmptyCandles, emitted, stuck := startTime, {}, [], false;
    }

    function View(): Cursor
      reads this
    {
      Cursor(requiredTime, emitted, stuck)
    }

    /** The branch for a required minute that was reported missing before this bar. */
    method SkipMissing(start: int) returns (restartLoop: bool)
      requires requiredTime < start
      modifies this`requiredTime
      ensures (requiredTime, restartLoop) == SkipGap(old(requiredTime), start, allEmptyCandles)
      ensures if restartLoop
              then && old(requiredTime) <= requiredTime && requiredTime + 1 < start
                   && requiredTime + 1 !in allEmptyCandles
                   && forall t :: old(requiredTime) < t <= requiredTime ==> t in allEmptyCandles
              else requiredTime == start + 1 && forall t :: old(requiredTime) < t < start ==> t in allEmptyCandles
    {
      SkipGapWaits(requiredTime, start, allEmptyCandles);
      restartLoop := false;
      while true
        invariant requiredTime < start && !restartLoop
        invariant SkipGap(requiredTime, start, allEmptyCandles) == SkipGap(old(requiredTime), start, allEmptyCandles)
        decreases start - requiredTime
      {
        requiredTime := requiredTime + 1;
        if requiredTime == start {
          requiredTime := requiredTime + 1;
          break;
        }
        if requiredTime !in allEmptyCandles {
          restartLoop := true;
          requiredTime := requiredTime - 1;
          break;
        }
      }
    }

    /** The branch past the last candle of a range whose end is missing. */
    method WalkToEnd(endTime: int)
      requires requiredTime < endTime
      modifies this`requiredTime
      ensures requiredTime == endTime
    {
      while true
        invariant requiredTime < endTime
        decreases endTime - requiredTime
      {
        requiredTime := requiredTime + 1;
        if requiredTime == endTime {
          break;
        }
      }
    }

    /** One candle of a pass; whether the pass is abandoned. */
    method AtCandle(candle: Bar, last: Bar, endTime: int) returns (restartLoop: bool)
      requires !stuck
      modifies this`requiredTime, this`emitted, this`stuck
      ensures (View(), restartLoop) == AtBar(old(View()), candle, last, allEmptyCandles, endTime)
    {
      restartLoop := false;
      if requiredTime == candle.start {
        emitted := emitted + [candle];
        requiredTime := requiredTime + 1;
      } else if requiredTime in allEmptyCandles {
        if requiredTime <= candle.start {
          restartLoop := SkipMissing(candle.start);
        } else if candle == last && candle.end != endTime {
          if requiredTime >= endTime {
            stuck, restartLoop := true, true; // the walk to endTime below would not end
          } else {
            WalkToEnd(endTime);
          }
        }
      }
    }

    /** One message from the channel, then one pass over the candles that have arrived. */
    method Receive(message: int, allCandlesArr: seq<Bar>, endTime: int)
      requires !stuck
      modifies this
      ensures allEmptyCandles == old(allEmptyCandles) + {message}
      ensures View() == Pass(old(View()), allCandlesArr, 0, allEmptyCandles, endTime)
    {
      allEmptyCandles := allEmptyCandles + {message};
      ghost var before := View();
      var n := 0;
      while n < |allCandlesArr|
        invariant 0 <= n <= |allCandlesArr| && !stuck && allEmptyCandles == old(allEmptyCandles) + {message}
        invariant Pass(before, allCandlesArr, 0, allEmptyCandles, endTime)
            == Pass(View(), allCandlesArr, n, allEmptyCandles, endTime)
      {
        var restartLoop := AtCandle(allCandlesArr[n], allCandlesArr[|allCandlesArr| - 1], endTime);
        if restartLoop {
          return;
        }
        n := n + 1;
      }
    }
  }

  // ---------- laws ----------

  ghost predicate Increasing(bars: seq<Bar>) {
    forall i, j :: 0 <= i < j < |bars| ==> bars[i].start < bars[j].start
  }

  /** Everything emitted lies before the cursor, in strictly increasing time. */
  ghost predicate InOrder(c: Cursor) {
    Increasing(c.emitted) && forall i :: 0 <= i < |c.emitted| ==> c.emitted[i].start < c.required
  }

  lemma {:induction false} SkipMovesOn(required: int, start: int, empties: set<int>)
    requires required < start
    ensures SkipGap(required, start, empties).0 >= required
    decreases start - required
  {
    if required + 1 == start || required + 1 !in empties {
    } else {
      SkipMovesOn(required + 1, start, empties);
    }
  }

  lemma {:induction false} AtBarKeepsOrder(c: Cursor, bar: Bar, last: Bar, empties: set<int>, endTime: int)
    requires InOrder(c)
    ensures var r := AtBar(c, bar, last, empties, endTime).0;
            && InOrder(r) && r.required >= c.required
            && (r.emitted == c.emitted || r.emitted == c.emitted + [bar])
  {
    if c.required != bar.start && c.required in empties && c.required < bar.start {
      SkipMovesOn(c.required, bar.start, empties);
    }
  }

  /** Whatever has arrived and been reported, a pass only appends arrived bars, in strictly
      increasing time and after everything emitted before. */
  lemma {:induction false} PassKeepsOrder(c: Cursor, bars: seq<Bar>, n: nat, empties: set<int>, endTime: int)
    requires n <= |bars| && InOrder(c)
    ensures var r := Pass(c, bars, n, empties, endTime);
            && InOrder(r) && r.required >= c.required && c.emitted <= r.emitted
            && forall i :: |c.emitted| <= i < |r.emitted| ==> r.emitted[i] in bars
    decreases |bars| - n
  {
    if n == |bars| {
    } else {
      AtBarKeepsOrder(c, bars[n], bars[|bars| - 1], empties, endTime);
      var r := AtBar(c, bars[n], bars[|bars| - 1], empties, endTime);
      if !r.1 {
        PassKeepsOrder(r.0, bars, n + 1, empties, endTime);
      }
    }
  }

  /** Bars for every minute from the cursor on are all emitted, one after the other. */
  lemma {:induction false} PassTakesAll(c: Cursor, bars: seq<Bar>, n: nat, empties: set<int>, endTime: int)
    requires n <= |bars| && forall i :: n <= i < |bars| ==> bars[i].start == c.required + (i - n)
    ensures Pass(c, bars, n, empties, endTime) == Cursor(c.required + (|bars| - n), c.emitted + bars[n..], c.stuck)
    decreases |bars| - n
  {
    if n == |bars| {
    } else {
      var d := AtBar(c, bars[n], bars[|bars| - 1], empties, endTime).0;
      PassTakesAll(d, bars, n + 1, empties, endTime);
      assert c.emitted + bars[n..] == d.emitted + bars[n + 1..];
    }
  }

  /** A cursor at the start of a fully reported gap is moved past the candle that ends it: this pass
      does not give that candle to the strategy. */
  lemma {:induction false} GapEndIsSteppedOver(c: Cursor, bar: Bar, last: Bar, empties: set<int>, endTime: int)
    requires c.required < bar.start && forall t :: c.required <= t < bar.start ==> t in empties
    ensures AtBar(c, bar, last, empties, endTime) == (c.(required := bar.start + 1), false)
    decreases bar.start - c.required
  {
    if c.required + 1 == bar.start {
    } else {
      GapEndIsSteppedOver(c.(required := c.required + 1), bar, last, empties, endTime);
    }
  }
}
