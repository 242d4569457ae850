/** checkTrendBreak (user_func_helpers.go): stop loss, take profits, trailing stop and maximum
    duration of the trend or trade in entryData. */
module TrendBreak {
  import opened Records

  /** The five results of a call that found an event. */
  datatype Event = Event(index: int, price: real, action: Kind, points: seq<MultiTPPoint>, updated: DataPoint)

  /** A call's event, if any, and what it leaves in *entryData. */
  datatype Outcome = Outcome(event: Option<Event>, entry: DataPoint)

  // ---------- multiple take profits ----------

  predicate Hit(p: MultiTPPoint, high: real) {
    p.price > 0.0 && high >= p.price && !p.isDone
  }

  /** The points that fire at this high, marked done. */
  function Fired(ps: seq<MultiTPPoint>, high: real): seq<MultiTPPoint> {
    if |ps| == 0 then []
    else Fired(ps[..|ps| - 1], high) + if Hit(ps[|ps| - 1], high) then [ps[|ps| - 1].(isDone := true)] else []
  }

  /** One entry for each point not done before: the fired point or a blank. */
  function Updates(ps: seq<MultiTPPoint>, high: real): seq<MultiTPPoint> {
    if |ps| == 0 then []
    else
      var p := ps[|ps| - 1];
      Updates(ps[..|ps| - 1], high) +
      if p.isDone then [] else if Hit(p, high) then [p.(isDone := true)] else [NoPoint]
  }

  /** The first update with this order, NoPoint if there is none. */
  function FindOrder(updates: seq<MultiTPPoint>, order: int): MultiTPPoint {
    if |updates| == 0 then NoPoint
    else if updates[0].order == order then updates[0]
    else FindOrder(updates[1..], order)
  }

  function Replaced(p: MultiTPPoint, updates: seq<MultiTPPoint>): MultiTPPoint {
    var u := FindOrder(updates, p.order);
    if u.price > 0.0 then u else p
  }

  function ReplaceAll(ps: seq<MultiTPPoint>, updates: seq<MultiTPPoint>): seq<MultiTPPoint> {
    seq(|ps|, i requires 0 <= i < |ps| => Replaced(ps[i], updates))
  }

  /** The points after a candle with this high. */
  function Refreshed(ps: seq<MultiTPPoint>, high: real): seq<MultiTPPoint> {
    var u := Updates(ps, high);
    if |u| > 0 && u[0].price > 0.0 then ReplaceAll(ps, u) else ps
  }

  function MultiTPEvent(e: DataPoint, ps: seq<MultiTPPoint>, i: int, high: real): Outcome {
    var fired := Fired(ps, high);
    var e' := e.(multiTPs := Some(Refreshed(ps, high)));
    Outcome(Some(Event(i, if |fired| == 0 then -1.0 else fired[|fired| - 1].price, MultiTP, fired, e')), e')
  }

  // ---------- trailing stop ----------

  function TrailStopout(trailingPerc: real, trailingMax: real): real {
    (1.0 - trailingPerc / 100.0) * trailingMax
  }

  function StopLevel(e: DataPoint): real {
    TrailStopout(e.trailingPerc, e.trailingMax)
  }

  /** The price that starts the trailing is read from the entry candle. */
  predicate TrailReadable(e: DataPoint, n: nat) {
    e.startTrailPerc > 0.0 && e.trailingPerc > 0.0 && !e.trailingStarted ==> 0 <= e.actualEntryIndex < n
  }

  function StartTrailPrice(entryClose: real, startTrailPerc: real): real {
    entryClose * (1.0 + startTrailPerc / 100.0)
  }

  function TrailStart(e: DataPoint, candles: seq<Candle>): real
    requires 0 <= e.actualEntryIndex < |candles|
  {
    StartTrailPrice(candles[e.actualEntryIndex].close, e.startTrailPerc)
  }

  function Trailed(e: DataPoint, candles: seq<Candle>, i: nat): Outcome
    requires i < |candles| && TrailReadable(e, |candles|)
  {
    if !(e.startTrailPerc > 0.0 && e.trailingPerc > 0.0) then Outcome(None, e)
    else if e.trailingStarted then
      var e' := if candles[i].high > e.trailingMax then e.(trailingMax := candles[i].high) else e;
      if candles[i].low <= StopLevel(e') then Outcome(Some(Event(i, StopLevel(e'), Trail, [], e')), e')
      else Outcome(None, e')
    else if candles[i].high >= TrailStart(e, candles) then
      Outcome(None, e.(trailingStarted := true, trailingMax := candles[i].high))
    else Outcome(None, e)
  }

  // ---------- the whole check ----------

  /** What candle i does. */
  function AtCandle(e: DataPoint, candles: seq<Candle>, i: nat): Outcome
    requires i < |candles| && TrailReadable(e, |candles|)
  {
    if candles[i].low <= e.slPrice && e.slPrice > 0.0 then Outcome(Some(Event(i, e.slPrice, SL, [], e)), e)
    else if candles[i].high >= e.tpPrice && e.tpPrice > 0.0 then Outcome(Some(Event(i, e.tpPrice, TP, [], e)), e)
    else if e.multiTPs.Some? then MultiTPEvent(e, e.multiTPs.value, i, candles[i].high)
    else Trailed(e, candles, i)
  }

  /** The candles i .. rel in turn, up to the first event. */
  function From(e: DataPoint, candles: seq<Candle>, i: nat, rel: nat): Outcome
    requires rel < |candles| && TrailReadable(e, |candles|)
    decreases rel + 1 - i
  {
    if i > rel then Outcome(None, e)
    else
      var o := AtCandle(e, candles, i);
      if o.event.Some? then o else From(o.entry, candles, i + 1, rel)
  }

  predicate Expired(e: DataPoint, rel: nat) {
    rel >= e.maxExitIndex && e.maxExitIndex != 0
  }

  function Check(e: DataPoint, rel: nat, start: nat, candles: seq<Candle>): Outcome
    requires rel < |candles| && TrailReadable(e, |candles|)
  {
    if Expired(e, rel) then Outcome(Some(Event(rel, candles[rel].close, Max, [], e)), e)
    else From(e, candles, start, rel)
  }

  // ---------- the imperative form ----------

  /** What `entryData *StrategyDataPoint` points at. */
  class EntryData {
    var data: DataPoint

    constructor (d: DataPoint)
      ensures data == d
    {
      data := d;
    }
  }

  method LookUp(updates: seq<MultiTPPoint>, order: int) returns (toAdd: MultiTPPoint)
    ensures toAdd == FindOrder(updates, order)
  {
    toAdd := NoPoint;
    var n := 0;
    while n < |updates|
      invariant 0 <= n <= |updates|
      invariant FindOrder(updates, order) == FindOrder(updates[n..], order)
    {
      if updates[n].order == order {
        return updates[n];
      }
      assert updates[n..][1..] == updates[n + 1..];
      n := n + 1;
    }
  }

  /** The multi-tp part of one candle. */
  method CheckMultiTPs(entryData: EntryData, ps: seq<MultiTPPoint>, high: real) returns (retTPPoints: seq<MultiTPPoint>)
    requires entryData.data.multiTPs == Some(ps)
    modifies entryData
    ensures retTPPoints == Fired(ps, high)
    ensures entryData.data == old(entryData.data).(multiTPs := Some(Refreshed(ps, high)))
  {
    retTPPoints := [];
    var updatedTPs := [];
    var n := 0;
    while n < |ps|
      invariant 0 <= n <= |ps|
      invariant retTPPoints == Fired(ps[..n], high) && updatedTPs == Updates(ps[..n], high)
    {
      var tpPoint := ps[n];
      assert ps[..n + 1][..n] == ps[..n];
      n := n + 1;
      if tpPoint.isDone {
        continue;
      }
      var p := NoPoint;
      if tpPoint.price > 0.0 && high >= tpPoint.price && !tpPoint.isDone {
        p := tpPoint.(isDone := true);
        retTPPoints := retTPPoints + [p];
      }
      updatedTPs := updatedTPs + [p];
    }
    assert ps[..n] == ps && updatedTPs == Updates(ps, high);
    if |updatedTPs| > 0 && updatedTPs[0].price > 0.0 {
      var newTPPoints := [];
      var k := 0;
      while k < |ps|
        invariant 0 <= k <= |ps| && unchanged(entryData)
        invariant newTPPoints == ReplaceAll(ps, updatedTPs)[..k]
      {
        var toAdd := LookUp(updatedTPs, ps[k].order);
        newTPPoints := newTPPoints + [if toAdd.price > 0.0 then toAdd else ps[k]];
        k := k + 1;
      }
      assert newTPPoints == ReplaceAll(ps, updatedTPs);
      entryData.data := entryData.data.(multiTPs := Some(newTPPoints));
    }
  }

  /** The body of the loop over the candles to check. */
  method CheckCandle(entryData: EntryData, candles: seq<Candle>, i: nat) returns (event: Option<Event>)
    requires i < |candles| && TrailReadable(entryData.data, |candles|)
    modifies entryData
    ensures Outcome(event, entryData.data) == AtCandle(old(entryData.data), candles, i)
  {
    event := None;
    var e := entryData.data;
    if candles[i].low <= e.slPrice && e.slPrice > 0.0 {
      return Some(Event(i, e.slPrice, SL, [], e));
    }
    if candles[i].high >= e.tpPrice && e.tpPrice > 0.0 {
      return Some(Event(i, e.tpPrice, TP, [], e));
    }
    if e.multiTPs.Some? {
      var fired := CheckMultiTPs(entryData, e.multiTPs.value, candles[i].high);
      var price := if |fired| <= 0 then -1.0 else fired[|fired| - 1].price;
      return Some(Event(i, price, MultiTP, fired, entryData.data));
    }
    if e.startTrailPerc > 0.0 && e.trailingPerc > 0.0 {
      if e.trailingStarted {
        if candles[i].high > e.trailingMax {
          entryData.data := entryData.data.(trailingMax := candles[i].high);
        }
        var trailStopoutPrice := TrailStopout(entryData.data.trailingPerc, entryData.data.trailingMax);
        if candles[i].low <= trailStopoutPrice {
          return Some(Event(i, trailStopoutPrice, Trail, [], entryData.data));
        }
      } else {
        var startTrailPrice := StartTrailPrice(candles[e.actualEntryIndex].close, e.startTrailPerc);
        if candles[i].high >= startTrailPrice {
          entryData.data := entryData.data.(trailingStarted := true, trailingMax := candles[i].high);
        }
      }
    }
  }

  method CheckTrendBreak(entryData: EntryData, relCandleIndex: nat, startCheckIndex: nat, candles: seq<Candle>)
    returns (event: Option<Event>)
    requires relCandleIndex < |candles| && TrailReadable(entryData.data, |candles|)
    modifies entryData
    ensures Outcome(event, entryData.data) == Check(old(entryData.data), relCandleIndex, startCheckIndex, candles)
  {
    if relCandleIndex >= entryData.data.maxExitIndex && entryData.data.maxExitIndex != 0 {
      return Some(Event(relCandleIndex, candles[relCandleIndex].close, Max, [], entryData.data));
    }
    event := None;
    var i := startCheckIndex;
    while i <= relCandleIndex
      invariant event.None? && TrailReadable(entryData.data, |candles|)
      invariant From(old(entryData.data), candles, startCheckIndex, relCandleIndex)
          == From(entryData.data, candles, i, relCandleIndex)
      decreases relCandleIndex + 1 - i
    {
      event := CheckCandle(entryData, candles, i);
      if event.Some? {
        return;
      }
      i := i + 1;
    }
  }

  // ---------- laws ----------

  /** Until the record expires, checking in two calls or in one is the same: the same event and the
      same entry. */
  lemma {:induction false} CheckSplits(e: DataPoint, candles: seq<Candle>, a: nat, b: nat, c: nat)
    requires a <= b <= c < |candles| && TrailReadable(e, |candles|)
    requires e.maxExitIndex == 0 || c < e.maxExitIndex
    ensures var first := Check(e, b, a, candles);
            && TrailReadable(first.entry, |candles|)
            && Check(e, c, a, candles) == if first.event.Some? then first else Check(first.entry, c, b + 1, candles)
  {
    FromSplits(e, candles, a, b, c);
  }

  lemma {:induction false} FromSplits(e: DataPoint, candles: seq<Candle>, i: nat, b: nat, c: nat)
    requires b <= c < |candles| && TrailReadable(e, |candles|) && i <= b + 1
    ensures var first := From(e, candles, i, b);
            && TrailReadable(first.entry, |candles|) && first.entry.maxExitIndex == e.maxExitIndex
            && From(e, candles, i, c) == if first.event.Some? then first else From(first.entry, candles, b + 1, c)
    decreases b + 1 - i
  {
    if i > b {
    } else {
      var o := AtCandle(e, candles, i);
      if o.event.None? {
        FromSplits(o.entry, candles, i + 1, b, c);
      }
    }
  }

  /** The call went through candle k without an event, or found the trailing stop hit on it. */
  predicate Passed(o: Outcome, k: int) {
    o.event.None? || k < o.event.value.index || (k == o.event.value.index && o.event.value.action == Trail)
  }

  /** Once the trailing has started, TrailingMax is the highest of the highs passed since, the stop level
      never falls, and every candle before the event stayed above the level it started from. */
  lemma {:induction false} TrailingNeverFalls(e: DataPoint, candles: seq<Candle>, i: nat, rel: nat)
    requires rel < |candles| && e.trailingStarted && e.startTrailPerc > 0.0 && 0.0 < e.trailingPerc <= 100.0
    requires e.multiTPs.None?
    ensures var o := From(e, candles, i, rel);
            && o.entry == e.(trailingMax := o.entry.trailingMax)
            && o.entry.trailingMax >= e.trailingMax && StopLevel(o.entry) >= StopLevel(e)
            && (o.event.Some? ==> i <= o.event.value.index <= rel)
            && (o.entry.trailingMax == e.trailingMax
                || exists k :: i <= k <= rel && Passed(o, k) && candles[k].high == o.entry.trailingMax)
            && (forall k :: i <= k <= rel && Passed(o, k) ==> candles[k].high <= o.entry.trailingMax)
            && (forall k :: i <= k <= rel && (o.event.None? || k < o.event.value.index) ==>
                candles[k].low > StopLevel(e))
    decreases rel + 1 - i
  {
    if i > rel {
    } else {
      var o := AtCandle(e, candles, i);
      LevelGrows(e, o.entry);
      if o.event.None? {
        TrailingNeverFalls(o.entry, candles, i + 1, rel);
      } else {
        assert o.event.value.index == i;
        assert o.event.value.action == Trail ==> Passed(o, i);
      }
    }
  }

  lemma {:induction false} LevelGrows(e: DataPoint, e': DataPoint)
    requires e' == e.(trailingMax := e'.trailingMax) && e'.trailingMax >= e.trailingMax && e.trailingPerc <= 100.0
    ensures StopLevel(e') >= StopLevel(e)
  {
    var f := 1.0 - e.trailingPerc / 100.0;
    assert f * (e'.trailingMax - e.trailingMax) >= 0.0;
  }
}
