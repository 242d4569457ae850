/** When checkTrendBreak finds an event, which one and at which price, for any record and any candles, without its
    step by step account of the trailing stop. */
module TrendEnds {
  import opened Records
  import opened TrendBreak
  import opened OpenCandles

  // ---------- what ends a trend on one candle ----------

  predicate TargetOn(e: DataPoint, c: Candle) {
    0.0 < e.tpPrice <= c.high
  }

  /** The record asks for a trailing stop. */
  predicate Trails(e: DataPoint) {
    e.startTrailPerc > 0.0 && e.trailingPerc > 0.0
  }

  /** The price that starts the trailing: so many percent above the close of the entry candle. */
  function StartPrice(close: real, startTrailPerc: real): real {
    close + close * startTrailPerc / 100.0
  }

  /** The trailing stop: so many percent below the maximum. */
  function TrailLevel(trailingPerc: real, top: real): real {
    top - top * trailingPerc / 100.0
  }

  /** Candle s starts the trailing, the candles being looked at from i on. */
  ghost predicate StartsOn(e: DataPoint, candles: seq<Candle>, i: nat, s: nat)
    requires i <= s < |candles| && 0 <= e.actualEntryIndex < |candles|
  {
    var price := StartPrice(candles[e.actualEntryIndex].close, e.startTrailPerc);
    candles[s].high >= price && forall k :: i <= k < s ==> candles[k].high < price
  }

  /** m is the largest of the base and the highs of candles a .. j. */
  ghost predicate Top(base: real, candles: seq<Candle>, a: nat, j: nat, m: real)
    requires j < |candles|
  {
    && m >= base && (forall k :: a <= k <= j ==> candles[k].high <= m)
    && (m == base || exists k :: a <= k <= j && candles[k].high == m)
  }

  /** m is the maximum the stop trails on candle j: that since the trailing started, on a candle before j. */
  ghost predicate TrailTop(e: DataPoint, candles: seq<Candle>, i: nat, j: nat, m: real)
    requires i <= j < |candles| && TrailReadable(e, |candles|) && Trails(e)
  {
    if e.trailingStarted then Top(e.trailingMax, candles, i, j, m)
    else exists s :: i <= s < j && StartsOn(e, candles, i, s) && Top(candles[s].high, candles, s + 1, j, m)
  }

  ghost predicate TrailOn(e: DataPoint, candles: seq<Candle>, i: nat, j: nat)
    requires i <= j < |candles| && TrailReadable(e, |candles|)
  {
    Trails(e) && exists m :: TrailTop(e, candles, i, j, m) && candles[j].low <= TrailLevel(e.trailingPerc, m)
  }

  ghost predicate EndsOn(e: DataPoint, candles: seq<Candle>, i: nat, j: nat)
    requires i <= j < |candles| && TrailReadable(e, |candles|)
  {
    StopReached(e, candles[j]) || TargetOn(e, candles[j]) || TrailOn(e, candles, i, j)
  }

  /** The event is that of its candle: the stop comes before the target, and the target before the trailing stop. */
  ghost predicate IsEnd(e: DataPoint, candles: seq<Candle>, i: nat, ev: Event)
    requires i <= ev.index < |candles| && TrailReadable(e, |candles|)
  {
    var c := candles[ev.index];
    && ev.points == []
    && if StopReached(e, c) then ev.action == SL && ev.price == e.slPrice
       else if TargetOn(e, c) then ev.action == TP && ev.price == e.tpPrice
       else
         && Trails(e) && ev.action == Trail
         && exists m :: TrailTop(e, candles, i, ev.index, m) && ev.price == TrailLevel(e.trailingPerc, m) >= c.low
  }

  // ---------- one candle less ----------

  /** The trailing part of what candle i leaves in the record. */
  ghost predicate TrailedOn(e: DataPoint, e': DataPoint, candles: seq<Candle>, i: nat)
    requires i < |candles| && TrailReadable(e, |candles|)
  {
    && e' == e.(trailingStarted := e'.trailingStarted, trailingMax := e'.trailingMax)
    && (Trails(e) ==>
          if e.trailingStarted then e'.trailingStarted && Top(e.trailingMax, candles, i, i, e'.trailingMax)
          else if StartsOn(e, candles, i, i) then e'.trailingStarted && e'.trailingMax == candles[i].high
          else !e'.trailingStarted)
  }

  lemma {:induction false} PricesAre(close: real, perc: real)
    ensures StartTrailPrice(close, perc) == StartPrice(close, perc)
    ensures TrailStopout(perc, close) == TrailLevel(perc, close)
  {
    assert close * (1.0 + perc / 100.0) == close + close * (perc / 100.0);
    assert (1.0 - perc / 100.0) * close == close - close * (perc / 100.0);
    assert close * perc / 100.0 == close * (perc / 100.0);
  }

  lemma {:induction false} OneTop(base: real, candles: seq<Candle>, a: nat, j: nat, m: real, m': real)
    requires j < |candles| && Top(base, candles, a, j, m) && Top(base, candles, a, j, m')
    ensures m == m'
  {
  }

  lemma {:induction false} TopNext(base: real, base': real, candles: seq<Candle>, i: nat, j: nat, m: real)
    requires i < j < |candles| && Top(base, candles, i, i, base')
    ensures Top(base', candles, i + 1, j, m) <==> Top(base, candles, i, j, m)
  {
    if Top(base', candles, i + 1, j, m) {
      assert candles[i].high <= m;
      if m != base {
        if m == base' {
          assert candles[i].high == m;
        } else {
          var k :| i + 1 <= k <= j && candles[k].high == m;
          assert i <= k <= j;
        }
      }
    }
    if Top(base, candles, i, j, m) {
      if m != base && m != base' {
        var k :| i <= k <= j && candles[k].high == m;
        assert k != i;
      }
    }
  }

  lemma {:induction false} StartsLater(e: DataPoint, candles: seq<Candle>, i: nat, s: nat)
    requires i < s < |candles| && 0 <= e.actualEntryIndex < |candles|
    ensures StartsOn(e, candles, i, s) <==> !StartsOn(e, candles, i, i) && StartsOn(e, candles, i + 1, s)
  {
  }

  lemma {:induction false} TrailTopNext(e: DataPoint, e': DataPoint, candles: seq<Candle>, i: nat, j: nat, m: real)
    requires i < j < |candles| && TrailReadable(e, |candles|) && Trails(e) && TrailedOn(e, e', candles, i)
    ensures TrailReadable(e', |candles|)
    ensures TrailTop(e', candles, i + 1, j, m) <==> TrailTop(e, candles, i, j, m)
  {
    hide Top, StartsOn;
    if e.trailingStarted {
      TopNext(e.trailingMax, e'.trailingMax, candles, i, j, m);
    } else {
      forall s | i < s < j
        ensures StartsOn(e, candles, i, s) <==> !StartsOn(e, candles, i, i) && StartsOn(e', candles, i + 1, s)
      {
        StartsLater(e, candles, i, s);
        SameStart(e, e', candles, i + 1, s);
      }
    }
  }

  lemma {:induction false} SameStart(e: DataPoint, e': DataPoint, candles: seq<Candle>, i: nat, s: nat)
    requires i <= s < |candles| && 0 <= e.actualEntryIndex < |candles|
    requires e' == e.(trailingStarted := e'.trailingStarted, trailingMax := e'.trailingMax)
    ensures StartsOn(e', candles, i, s) <==> StartsOn(e, candles, i, s)
  {
  }

  lemma {:induction false} EndsNext(e: DataPoint, e': DataPoint, candles: seq<Candle>, i: nat, j: nat)
    requires i < j < |candles| && TrailReadable(e, |candles|) && TrailedOn(e, e', candles, i)
    ensures TrailReadable(e', |candles|)
    ensures EndsOn(e', candles, i + 1, j) <==> EndsOn(e, candles, i, j)
    ensures forall ev: Event :: ev.index == j ==> (IsEnd(e', candles, i + 1, ev) <==> IsEnd(e, candles, i, ev))
  {
    hide TrailTop, TrailLevel;
    if Trails(e) {
      forall m ensures TrailTop(e', candles, i + 1, j, m) <==> TrailTop(e, candles, i, j, m) {
        TrailTopNext(e, e', candles, i, j, m);
      }
    }
  }

  /** Candle i of a record without take-profit points. */
  lemma {:induction false} FirstCandle(e: DataPoint, candles: seq<Candle>, i: nat)
    requires i < |candles| && TrailReadable(e, |candles|) && e.multiTPs.None?
    ensures var o := AtCandle(e, candles, i);
            && (o.event.Some? <==> EndsOn(e, candles, i, i))
            && (o.event.Some? ==> o.event.value.index == i && IsEnd(e, candles, i, o.event.value))
            && (o.event.None? ==> TrailedOn(e, o.entry, candles, i))
  {
    var c := candles[i];
    if Trails(e) && !StopReached(e, c) && !TargetOn(e, c) {
      TrailedCandle(e, candles, i);
    }
  }

  lemma {:induction false} TrailedCandle(e: DataPoint, candles: seq<Candle>, i: nat)
    requires i < |candles| && TrailReadable(e, |candles|) && Trails(e)
    requires !StopReached(e, candles[i]) && !TargetOn(e, candles[i])
    ensures var o := Trailed(e, candles, i);
            && (o.event.Some? <==> TrailOn(e, candles, i, i))
            && (o.event.Some? ==> o.event.value.index == i && IsEnd(e, candles, i, o.event.value))
            && (o.event.None? ==> TrailedOn(e, o.entry, candles, i))
  {
    hide StartPrice, TrailLevel, StartTrailPrice, TrailStopout;
    var c := candles[i];
    if e.trailingStarted {
      var m := if c.high > e.trailingMax then c.high else e.trailingMax;
      assert Top(e.trailingMax, candles, i, i, m);
      PricesAre(m, e.trailingPerc);
      forall m' | Top(e.trailingMax, candles, i, i, m') ensures m' == m {
      }
    } else {
      PricesAre(candles[e.actualEntryIndex].close, e.startTrailPerc);
    }
  }

  // ---------- the check ----------

  /** The result for a record without take-profit points that has not expired: no event if no candle ends the trend,
      and otherwise the event of the first one that does. */
  ghost predicate FirstEnd(e: DataPoint, candles: seq<Candle>, i: nat, rel: nat, event: Option<Event>)
    requires rel < |candles| && TrailReadable(e, |candles|)
  {
    match event
    case None => forall j :: i <= j <= rel ==> !EndsOn(e, candles, i, j)
    case Some(ev) =>
      && i <= ev.index <= rel && EndsOn(e, candles, i, ev.index) && IsEnd(e, candles, i, ev)
      && forall j :: i <= j < ev.index ==> !EndsOn(e, candles, i, j)
  }

  lemma {:induction false} FromIs(e: DataPoint, candles: seq<Candle>, i: nat, rel: nat)
    requires rel < |candles| && TrailReadable(e, |candles|) && e.multiTPs.None?
    ensures FirstEnd(e, candles, i, rel, From(e, candles, i, rel).event)
    decreases rel + 1 - i
  {
    hide AtCandle, EndsOn, IsEnd, TrailedOn;
    if i > rel {
    } else {
      FirstCandle(e, candles, i);
      var o := AtCandle(e, candles, i);
      if o.event.None? {
        TrailedKeeps(e, o.entry, candles, i);
        FromIs(o.entry, candles, i + 1, rel);
        forall j: nat | i < j <= rel
          ensures EndsOn(o.entry, candles, i + 1, j) <==> EndsOn(e, candles, i, j)
          ensures forall ev: Event :: ev.index == j ==>
                    (IsEnd(o.entry, candles, i + 1, ev) <==> IsEnd(e, candles, i, ev))
        {
          EndsNext(e, o.entry, candles, i, j);
        }
      } else {
        assert From(e, candles, i, rel) == o;
        assert FirstEnd(e, candles, i, rel, o.event);
      }
    }
  }

  lemma {:induction false} TrailedKeeps(e: DataPoint, e': DataPoint, candles: seq<Candle>, i: nat)
    requires i < |candles| && TrailReadable(e, |candles|) && TrailedOn(e, e', candles, i)
    ensures e'.multiTPs == e.multiTPs && TrailReadable(e', |candles|)
  {
  }

  /** Every call on a record without take-profit points: at the deadline the close of the current candle, and before it
      the first stop, target or trailing stop on the candles looked at. */
  lemma {:induction false} CheckIs(e: DataPoint, rel: nat, start: nat, candles: seq<Candle>)
    requires rel < |candles| && TrailReadable(e, |candles|) && e.multiTPs.None?
    ensures var event := Check(e, rel, start, candles).event;
            if DeadlineOn(e, rel) then event == Some(Event(rel, candles[rel].close, Max, [], e))
            else FirstEnd(e, candles, start, rel, event)
  {
    hide FirstEnd;
    FromIs(e, candles, start, rel);
  }

  // ---------- records with take-profit points ----------

  /** The points reached by the high, marked done, in the order of the list. */
  function PointsFiring(ps: seq<MultiTPPoint>, high: real): seq<MultiTPPoint> {
    if |ps| == 0 then []
    else
      var p := ps[|ps| - 1];
      PointsFiring(ps[..|ps| - 1], high) + if PointReached(p, high) then [p.(isDone := true)] else []
  }

  lemma {:induction false} FiringAre(ps: seq<MultiTPPoint>, high: real)
    ensures Fired(ps, high) == PointsFiring(ps, high)
  {
    if |ps| == 0 {
    } else {
      FiringAre(ps[..|ps| - 1], high);
    }
  }

  /** Orders are positive and differ, as logEntry numbers them. */
  ghost predicate Numbered(ps: seq<MultiTPPoint>) {
    && (forall i :: 0 <= i < |ps| ==> ps[i].order > 0)
    && forall i, j :: 0 <= i < j < |ps| ==> ps[i].order != ps[j].order
  }

  /** The first point not done before is reached. */
  ghost predicate NextReached(ps: seq<MultiTPPoint>, high: real) {
    exists i :: 0 <= i < |ps| && PointReached(ps[i], high) && forall k :: 0 <= k < i ==> ps[k].isDone
  }

  lemma {:induction false} UpdatesHold(ps: seq<MultiTPPoint>, high: real, u: MultiTPPoint)
    ensures u in Updates(ps, high)
       <==> exists i :: 0 <= i < |ps| && !ps[i].isDone
                        && u == if PointReached(ps[i], high) then ps[i].(isDone := true) else NoPoint
  {
    if |ps| == 0 {
    } else {
      var n := |ps| - 1;
      UpdatesHold(ps[..n], high, u);
      if u in Updates(ps, high) && u !in Updates(ps[..n], high) {
        assert !ps[n].isDone;
      }
      if u in Updates(ps[..n], high) {
        var i :| 0 <= i < n && !ps[..n][i].isDone
                 && u == if PointReached(ps[..n][i], high) then ps[..n][i].(isDone := true) else NoPoint;
        assert ps[i] == ps[..n][i];
      }
      if i :| 0 <= i < |ps| && !ps[i].isDone
              && u == if PointReached(ps[i], high) then ps[i].(isDone := true) else NoPoint {
        if i < n {
          assert ps[..n][i] == ps[i];
        } else {
          assert Hit(ps[n], high) <==> PointReached(ps[n], high);
        }
      }
    }
  }

  lemma {:induction false} FirstUpdate(ps: seq<MultiTPPoint>, high: real)
    ensures (|Updates(ps, high)| > 0 && Updates(ps, high)[0].price > 0.0) <==> NextReached(ps, high)
    ensures Updates(ps, high) == [] <==> forall i :: 0 <= i < |ps| ==> ps[i].isDone
  {
    if |ps| == 0 {
    } else {
      var n := |ps| - 1;
      FirstUpdate(ps[..n], high);
      assert Hit(ps[n], high) <==> PointReached(ps[n], high);
      if NextReached(ps[..n], high) {
        var i :| 0 <= i < n && PointReached(ps[..n][i], high) && forall k :: 0 <= k < i ==> ps[..n][k].isDone;
        assert PointReached(ps[i], high) && forall k :: 0 <= k < i ==> ps[k] == ps[..n][k];
      }
      if NextReached(ps, high) {
        var i :| 0 <= i < |ps| && PointReached(ps[i], high) && forall k :: 0 <= k < i ==> ps[k].isDone;
        if i < n {
          assert PointReached(ps[..n][i], high) && forall k :: 0 <= k < i ==> ps[..n][k] == ps[k];
        } else {
          assert forall k :: 0 <= k < n ==> ps[..n][k].isDone;
        }
      }
      if forall k :: 0 <= k < n ==> ps[..n][k].isDone {
        assert forall k :: 0 <= k < n ==> ps[k] == ps[..n][k];
      } else {
        var k :| 0 <= k < n && !ps[..n][k].isDone;
        assert !ps[k].isDone;
      }
    }
  }

  lemma {:induction false} FindOrderIs(u: seq<MultiTPPoint>, order: int)
    ensures var r := FindOrder(u, order);
            (r in u && r.order == order) || (r == NoPoint && forall x :: x in u ==> x.order != order)
  {
    if |u| == 0 {
    } else {
      FindOrderIs(u[1..], order);
    }
  }

  lemma {:induction false} ReplacedIs(ps: seq<MultiTPPoint>, high: real, i: nat)
    requires Numbered(ps) && i < |ps|
    ensures Replaced(ps[i], Updates(ps, high)) == PointsAfter(ps, high)[i]
  {
    hide Updates, FindOrder;
    var u, p := Updates(ps, high), ps[i];
    var r, fired := FindOrder(u, p.order), p.(isDone := true);
    FindOrderIs(u, p.order);
    UpdatesHold(ps, high, r);
    UpdatesHold(ps, high, fired);
    assert PointReached(p, high) ==> fired in u;
    if r in u && r.order == p.order {
      var j :| 0 <= j < |ps| && !ps[j].isDone
               && r == if PointReached(ps[j], high) then ps[j].(isDone := true) else NoPoint;
      assert j == i;
    }
  }

  /** The points after a candle: those reached are marked done if the first one not done before is among them, and
      none is marked if it is not. */
  lemma {:induction false} RefreshedIs(ps: seq<MultiTPPoint>, high: real)
    requires Numbered(ps)
    ensures Refreshed(ps, high) == if NextReached(ps, high) then PointsAfter(ps, high) else ps
  {
    hide Updates, Replaced, NextReached, PointReached;
    FirstUpdate(ps, high);
    forall i: nat | i < |ps| ensures Replaced(ps[i], Updates(ps, high)) == PointsAfter(ps, high)[i] {
      ReplacedIs(ps, high, i);
    }
    assert NextReached(ps, high) ==> ReplaceAll(ps, Updates(ps, high)) == PointsAfter(ps, high);
  }

  /** A record with take-profit points is looked at on the first candle only: its stop, else its target, else the
      points the high reaches, with the price of the last of them, or -1 when none is reached. */
  lemma {:induction false} PointsCheckIs(e: DataPoint, rel: nat, start: nat, candles: seq<Candle>)
    requires start <= rel < |candles| && TrailReadable(e, |candles|) && !DeadlineOn(e, rel)
    requires e.multiTPs.Some? && Numbered(e.multiTPs.value)
    ensures var c, ps := candles[start], e.multiTPs.value;
            var firing := PointsFiring(ps, c.high);
            var e' := e.(multiTPs := Some(if NextReached(ps, c.high) then PointsAfter(ps, c.high) else ps));
            Check(e, rel, start, candles)
            == if StopReached(e, c) then Outcome(Some(Event(start, e.slPrice, SL, [], e)), e)
               else if TargetOn(e, c) then Outcome(Some(Event(start, e.tpPrice, TP, [], e)), e)
               else Outcome(Some(Event(start, if firing == [] then -1.0 else firing[|firing| - 1].price, MultiTP,
                                       firing, e')), e')
  {
    hide Refreshed, Fired;
    FiringAre(e.multiTPs.value, candles[start].high);
    RefreshedIs(e.multiTPs.value, candles[start].high);
  }
}
