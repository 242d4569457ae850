/** The take-profit ladder of an open trade: which points one candle fires, what that leaves
    and what closing the fired points does to the position. */
module Ladder {
  import opened Records
  import opened Executor
  import opened ExecutorLaws
  import opened TrendBreak
  import opened EntryLog
  import opened Strategy

  /** Points in order of price, numbered from 1, with positive sizes; exactly the first d are done. */
  ghost predicate Rungs(ps: seq<MultiTPPoint>, d: nat) {
    && d <= |ps|
    && StrictlyByPrice(ps)
    && (forall i :: 0 <= i < |ps| ==> Rung(ps, d, i))
  }

  ghost predicate Rung(ps: seq<MultiTPPoint>, d: nat, i: nat)
    requires i < |ps|
  {
    var p := ps[i];
    p.order == i + 1 && p.total == |ps| && p.price > 0.0 && p.closeSize > 0.0 && (p.isDone <==> i < d)
  }

  /** The position left is exactly what the points not yet done will close. */
  ghost predicate Covers(ps: seq<MultiTPPoint>, d: nat, pos: real) {
    Rungs(ps, d) && d < |ps| && SizeFrom(ps, d) == pos
  }

  // ---------- a new ladder ----------

  ghost function PercSum(t: seq<Target>): real {
    if |t| == 0 then 0.0 else t[0].closePerc + PercSum(t[1..])
  }

  /** A take-profit map: ascending keys, positive percentages, all but the last below 100 together. */
  ghost predicate GoodTargets(t: seq<Target>) {
    && (forall i, j :: 0 <= i < j < |t| ==> t[i].profitPerc < t[j].profitPerc)
    && (forall i :: 0 <= i < |t| ==> t[i].closePerc > 0.0)
    && (|t| > 0 ==> PercSum(t[..|t| - 1]) < 100.0)
  }

  /** The map strat1 builds satisfies this whatever the model returns for tpSingle. */
  lemma {:induction false} SingleTargetIsGood(tpSingle: real)
    ensures GoodTargets([Target(tpSingle, 100.0)])
  {
    assert [Target(tpSingle, 100.0)][..0] == [];
  }

  lemma {:induction false} PricesAscend(close: real, a: real, b: real)
    requires close > 0.0 && a < b
    ensures TargetPrice(close, a) < TargetPrice(close, b)
  {
    assert (1.0 + b / 100.0) - (1.0 + a / 100.0) > 0.0;
    assert close * ((1.0 + b / 100.0) - (1.0 + a / 100.0)) > 0.0;
  }

  lemma {:induction false} PercsAgree(ps: seq<MultiTPPoint>, t: seq<Target>)
    requires |ps| == |t| && forall i :: 0 <= i < |t| ==> ps[i].closePerc == t[i].closePerc
    ensures |t| > 0 ==> PercBeforeLast(ps) == PercSum(t[..|t| - 1])
  {
    if |t| <= 1 {
    } else {
      PercsAgree(ps[1..], t[1..]);
      assert t[..|t| - 1][1..] == t[1..][..|t| - 2];
    }
  }

  lemma {:induction false} PointsAscend(t: seq<Target>, close: real)
    requires GoodTargets(t) && close > 0.0
    ensures StrictlyByPrice(PointsOf(t, close))
  {
    forall i, j | 0 <= i < j < |t| ensures PointsOf(t, close)[i].price < PointsOf(t, close)[j].price {
      PricesAscend(close, t[i].profitPerc, t[j].profitPerc);
    }
  }

  lemma {:induction false} NewRungs(t: seq<Target>, close: real, ps: seq<MultiTPPoint>)
    requires StrictlyByPrice(PointsOf(t, close)) && |ps| == |t| > 0 && PointsOf(t, close)[0].price > 0.0
    requires forall i :: 0 <= i < |ps| ==>
        ps[i] == PointsOf(t, close)[i].(closeSize := ps[i].closeSize) && ps[i].closeSize > 0.0
    ensures Rungs(ps, 0)
  {
    forall i | 0 <= i < |ps| ensures Rung(ps, 0, i) {
      assert i > 0 ==> PointsOf(t, close)[0].price < PointsOf(t, close)[i].price;
    }
  }

  /** Sizing the points of a good map either yields no points or a ladder for the whole position. */
  lemma {:induction false} NewLadder(t: seq<Target>, close: real, size: real)
    requires GoodTargets(t) && close > 0.0 && size > 0.0
    ensures var ps := CompletedTPs(PointsOf(t, close), size);
            ps == [] || Covers(ps, 0, size)
  {
    var points := PointsOf(t, close);
    PointsAscend(t, close);
    SortKeepsOrdered(points);
    if |points| > 0 && points[0].price > 0.0 {
      PercsAgree(points, t);
      ShareBelow(PercBeforeLast(points), size);
      SizesPositive(points, size, size);
      SizesKeepRest(points, size, size);
      SizesAddUp(points, size, size);
      NewRungs(t, close, WithSizes(points, size, size));
    }
  }

  lemma {:induction false} ShareBelow(perc: real, size: real)
    requires perc < 100.0 && size > 0.0
    ensures Share(perc, size) < size
  {
    assert (1.0 - perc / 100.0) * size > 0.0;
  }

  // ---------- what a candle fires ----------

  /** Points d .. e - 1 fire at this high: exactly those the high reaches. */
  ghost predicate Reaches(ps: seq<MultiTPPoint>, d: nat, e: nat, high: real) {
    && d <= e <= |ps|
    && (forall i :: d <= i < e ==> ps[i].price <= high)
    && (forall i :: e <= i < |ps| ==> ps[i].price > high)
  }

  lemma {:induction false} ReachExists(ps: seq<MultiTPPoint>, d: nat, high: real) returns (e: nat)
    requires Rungs(ps, d)
    ensures Reaches(ps, d, e, high)
  {
    e := d;
    while e < |ps| && ps[e].price <= high
      invariant d <= e <= |ps| && forall i :: d <= i < e ==> ps[i].price <= high
    {
      e := e + 1;
    }
  }

  function Done(p: MultiTPPoint): MultiTPPoint {
    p.(isDone := true)
  }

  /** The points d .. e - 1, done. */
  function DoneRange(ps: seq<MultiTPPoint>, d: nat, e: nat): seq<MultiTPPoint>
    requires d <= e <= |ps|
  {
    seq(e - d, i requires 0 <= i < e - d => Done(ps[d + i]))
  }

  /** The ladder with its first e points done. */
  function DoneUpTo(ps: seq<MultiTPPoint>, e: nat): seq<MultiTPPoint>
    requires e <= |ps|
  {
    seq(|ps|, i requires 0 <= i < |ps| => if i < e then Done(ps[i]) else ps[i])
  }

  function Blanks(n: nat): seq<MultiTPPoint> {
    seq(n, _ => NoPoint)
  }

  function Clamp(n: nat, lo: nat, hi: nat): nat
    requires lo <= hi
  {
    if n < lo then lo else if n > hi then hi else n
  }

  lemma {:induction false} FiredIs(ps: seq<MultiTPPoint>, d: nat, e: nat, high: real, n: nat)
    requires Rungs(ps, d) && Reaches(ps, d, e, high) && n <= |ps|
    ensures Fired(ps[..n], high) == DoneRange(ps, d, Clamp(n, d, e))
  {
    if n == 0 {
    } else {
      FiredIs(ps, d, e, high, n - 1);
      assert ps[..n][..n - 1] == ps[..n - 1];
      assert Rung(ps, d, n - 1);
      if d < n <= e {
        assert DoneRange(ps, d, n) == DoneRange(ps, d, n - 1) + [Done(ps[n - 1])];
      }
    }
  }

  /** One update for each point not done: the fired points, then blanks. */
  function UpdatesUpTo(ps: seq<MultiTPPoint>, d: nat, e: nat, n: nat): seq<MultiTPPoint>
    requires d <= e <= |ps|
  {
    DoneRange(ps, d, Clamp(n, d, e)) + Blanks(if n > e then n - e else 0)
  }

  lemma {:induction false} UpdatesStep(ps: seq<MultiTPPoint>, d: nat, e: nat, n: nat)
    requires d <= e <= |ps| && 0 < n <= |ps|
    ensures UpdatesUpTo(ps, d, e, n) == UpdatesUpTo(ps, d, e, n - 1) +
            if n <= d then [] else if n <= e then [Done(ps[n - 1])] else [NoPoint]
  {
  }

  lemma {:induction false} UpdatesAre(ps: seq<MultiTPPoint>, d: nat, e: nat, high: real, n: nat)
    requires Rungs(ps, d) && Reaches(ps, d, e, high) && n <= |ps|
    ensures Updates(ps[..n], high) == UpdatesUpTo(ps, d, e, n)
  {
    if n == 0 {
    } else {
      UpdatesAre(ps, d, e, high, n - 1);
      UpdatesStep(ps, d, e, n);
      assert ps[..n][..n - 1] == ps[..n - 1];
      assert Rung(ps, d, n - 1);
    }
  }

  /** The update for point i, if it fired, is the only one with its order. */
  lemma {:induction false} UpdateOrders(ps: seq<MultiTPPoint>, d: nat, e: nat, i: nat)
    requires Rungs(ps, d) && d <= e <= |ps| && i < |ps|
    ensures var u := UpdatesUpTo(ps, d, e, |ps|);
            FindOrder(u, i + 1) == if d <= i < e then Done(ps[i]) else NoPoint
  {
    var u := UpdatesUpTo(ps, d, e, |ps|);
    forall j | 0 <= j < |u| && j != i - d ensures u[j].order != i + 1 {
      if j < e - d { assert Rung(ps, d, d + j); }
    }
    if d <= i < e {
      var k := i - d;
      assert Rung(ps, d, i) && d + k == i;
      assert DoneRange(ps, d, e)[k] == Done(ps[i]);
      FindOrderAt(u, i + 1, k);
    } else {
      FindOrderNone(u, i + 1);
    }
  }

  lemma {:induction false} FindOrderAt(u: seq<MultiTPPoint>, order: int, k: nat)
    requires k < |u| && u[k].order == order && forall j :: 0 <= j < k ==> u[j].order != order
    ensures FindOrder(u, order) == u[k]
  {
    if k == 0 {
    } else {
      FindOrderAt(u[1..], order, k - 1);
    }
  }

  lemma {:induction false} FindOrderNone(u: seq<MultiTPPoint>, order: int)
    requires forall j :: 0 <= j < |u| ==> u[j].order != order
    ensures FindOrder(u, order) == NoPoint
  {
    if |u| == 0 {
    } else {
      FindOrderNone(u[1..], order);
    }
  }

  /** One candle fires exactly the points its high reaches and marks exactly those done. */
  lemma {:induction false} CandleFires(ps: seq<MultiTPPoint>, d: nat, e: nat, high: real)
    requires Rungs(ps, d) && d < |ps| && Reaches(ps, d, e, high)
    ensures Fired(ps, high) == DoneRange(ps, d, e)
    ensures Refreshed(ps, high) == DoneUpTo(ps, e)
  {
    FiredIs(ps, d, e, high, |ps|);
    UpdatesAre(ps, d, e, high, |ps|);
    assert ps[..|ps|] == ps;
    ReplacesDone(ps, d, e);
    if d < e {
      assert Rung(ps, d, d);
      assert UpdatesUpTo(ps, d, e, |ps|)[0] == DoneRange(ps, d, e)[0] == Done(ps[d]);
    } else {
      AlreadyDone(ps, d);
    }
  }

  lemma {:induction false} ReplacesDone(ps: seq<MultiTPPoint>, d: nat, e: nat)
    requires Rungs(ps, d) && d <= e <= |ps|
    ensures ReplaceAll(ps, UpdatesUpTo(ps, d, e, |ps|)) == DoneUpTo(ps, e)
  {
    var u := UpdatesUpTo(ps, d, e, |ps|);
    forall i | 0 <= i < |ps| ensures Replaced(ps[i], u) == DoneUpTo(ps, e)[i] {
      assert Rung(ps, d, i);
      UpdateOrders(ps, d, e, i);
    }
  }

  lemma {:induction false} AlreadyDone(ps: seq<MultiTPPoint>, d: nat)
    requires Rungs(ps, d)
    ensures DoneUpTo(ps, d) == ps
  {
    forall i | 0 <= i < |ps| ensures DoneUpTo(ps, d)[i] == ps[i] {
      assert Rung(ps, d, i);
    }
  }

  lemma {:induction false} SizeIgnoresDone(ps: seq<MultiTPPoint>, qs: seq<MultiTPPoint>, d: nat)
    requires |ps| == |qs| && d <= |ps| && forall i :: d <= i < |ps| ==> ps[i].closeSize == qs[i].closeSize
    ensures SizeFrom(ps, d) == SizeFrom(qs, d)
    decreases |ps| - d
  {
    if d == |ps| {
    } else {
      SizeIgnoresDone(ps, qs, d + 1);
    }
  }

  lemma {:induction false} DoneUpToKeepsRungs(ps: seq<MultiTPPoint>, d: nat, e: nat)
    requires Rungs(ps, d) && d <= e <= |ps|
    ensures Rungs(DoneUpTo(ps, e), e)
    ensures SizeFrom(DoneUpTo(ps, e), e) == SizeFrom(ps, e)
  {
    var qs := DoneUpTo(ps, e);
    forall i | 0 <= i < |qs| ensures Rung(qs, e, i) {
      assert Rung(ps, d, i);
    }
    SizeIgnoresDone(ps, qs, e);
  }

  lemma {:induction false} SizesStayPositive(ps: seq<MultiTPPoint>, d: nat, e: nat)
    requires Rungs(ps, d) && e <= |ps|
    ensures SizeFrom(ps, e) >= 0.0 && (e < |ps| ==> SizeFrom(ps, e) > 0.0)
    decreases |ps| - e
  {
    if e == |ps| {
    } else {
      assert Rung(ps, d, e);
      SizesStayPositive(ps, d, e + 1);
    }
  }

  /** Closing the first k fired points: the position shrinks by their sizes, and the trend is
      broken exactly when the last point of the ladder is among them. */
  lemma {:induction false} FiringCloses(ps: seq<MultiTPPoint>, d: nat, e: nat, b: Book, rel: int, k: nat)
    requires Rungs(ps, d) && d <= e <= |ps| && k <= e - d && b.account.posLongSize == SizeFrom(ps, d)
    ensures var r := FireAll(b, DoneRange(ps, d, e)[..k], rel);
            var finished := k > 0 && d + k == |ps|;
            && r.account.posLongSize == SizeFrom(ps, d + k)
            && r.latest == (if finished then Broken(b.latest, rel, MultiTP) else b.latest)
            && r.trades == (if finished then b.trades + [Broken(b.latest, rel, MultiTP)] else b.trades)
  {
    if k == 0 {
    } else {
      var points := DoneRange(ps, d, e);
      FiringCloses(ps, d, e, b, rel, k - 1);
      assert points[..k][..k - 1] == points[..k - 1];
      var p := points[k - 1];
      assert Rung(ps, d, d + (k - 1)) && p == Done(ps[d + (k - 1)]);
      assert FireAll(b, points[..k], rel) == FireOne(FireAll(b, points[..k - 1], rel), p, rel);
      assert p.order == p.total <==> d + k == |ps|;
    }
  }
}
