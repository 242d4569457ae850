/** What every run of the pivot detector guarantees. */
module PivotTheorems {
  import opened PivotSpec
  import opened PivotRuns

  // ---------- the two shapes ----------

  /** ph[0] < pl[0] < ph[1] < pl[1] < ... */
  ghost predicate StartsWithHigh(p: Pivots) {
    && 0 <= |p.ph| - |p.pl| <= 1
    && (forall i :: 0 <= i < |p.pl| ==> p.ph[i] < p.pl[i])
    && (forall i :: 0 <= i < |p.ph| - 1 ==> p.pl[i] < p.ph[i + 1])
  }

  /** ph[0] == pl[0] == 50, then pl[1] < ph[1] < pl[2] < ph[2] < ... */
  ghost predicate StartsShared(p: Pivots) {
    && 0 <= |p.pl| - |p.ph| <= 1
    && |p.ph| > 0 && p.ph[0] == p.pl[0] == MAX_NO_PIVOTS_CANDLES
    && (forall i :: 1 <= i < |p.ph| ==> p.pl[i] < p.ph[i])
    && (forall i :: 0 <= i < |p.pl| - 1 ==> p.ph[i] < p.pl[i + 1])
  }

  /** In every run the lists are never indexed while empty and keep one of two shapes; the
      shared first candle only arises when the first high came from the timeout. */
  lemma {:induction false} TwoShapes(high: seq<real>, low: seq<real>)
    requires |high| == |low|
    ensures var p := Run(high, low);
            && IndexSafe(p)
            && (StartsWithHigh(p) || StartsShared(p))
            && (StartsShared(p) ==> |high| > 51 && !Clears(high, low, true, 50, 51))
  {
    ShapeIsOneOfTwo(Run(high, low));
  }

  lemma {:induction false} ShapeIsOneOfTwo(p: Pivots)
    requires Shape(p)
    ensures if Off(p) == 1 then StartsShared(p) else StartsWithHigh(p) && !StartsShared(p)
  {
    var off := Off(p);
    forall i | off <= i < |p.pl| ensures p.ph[i - off] < p.pl[i] {
      assert LowFollows(p, off, i);
    }
    forall i | 1 <= i < |p.ph| ensures p.pl[i - 1 + off] < p.ph[i] {
      assert HighFollows(p, off, i);
    }
    if off == 1 {
      assert forall i :: 1 <= i < |p.ph| ==> p.pl[i] == p.pl[i - 1 + off];
      forall i | 0 <= i < |p.pl| - 1 ensures p.ph[i] < p.pl[i + 1] {
        assert LowFollows(p, off, i + 1);
      }
    } else {
      forall i | 0 <= i < |p.ph| - 1 ensures p.pl[i] < p.ph[i + 1] {
        assert HighFollows(p, off, i + 1);
      }
    }
  }

  // ---------- bounded silence ----------

  /** After every candle the latest pivot (0 if none) is at most 50 candles back, each pivot
      follows the one before it by at most 50, and m pivots cover at least the first
      50 * m + 50 candles. */
  lemma {:induction false} BoundedSilence(high: seq<real>, low: seq<real>)
    requires |high| == |low| > 0
    ensures var p := Run(high, low);
            && |high| - 1 - Latest(p) <= 50
            && (|p.ph| > 0 ==> p.ph[0] <= 50)
            && (forall i :: Off(p) <= i < |p.pl| ==> LowFollows(p, Off(p), i))
            && (forall i :: 1 <= i < |p.ph| ==> HighFollows(p, Off(p), i))
            && 50 * (|p.ph| + |p.pl|) + 50 >= |high| - 1
  {
    var p := Run(high, low);
    assert Inv(high, low, p);
  }

  // ---------- pivot lows as an index list ----------

  ghost predicate Increasing(s: seq<nat>) {
    forall i, j :: 0 <= i < j < |s| ==> s[i] < s[j]
  }

  /** The pivot lows are strictly increasing and never on candle 0. */
  lemma {:induction false} LowsAreIncreasing(high: seq<real>, low: seq<real>)
    requires |high| == |low|
    ensures var pl := Run(high, low).pl;
            && Increasing(pl)
            && (forall i :: 0 <= i < |pl| ==> 1 <= pl[i] && pl[i] + 1 < |high|)
  {
    var p := Run(high, low);
    forall i, j | 0 <= i < j < |p.pl| ensures p.pl[i] < p.pl[j] {
      LowsIncrease(p, i, j);
    }
    if |p.pl| > 0 {
      assert Off(p) == 0 ==> LowFollows(p, 0, 0);
    }
  }

  /** The lists only grow: what a run has found so far stays where it is. */
  lemma {:induction false} ListsOnlyGrow(high: seq<real>, low: seq<real>, n: nat)
    requires n <= |high| == |low|
    ensures Run(high[..n], low[..n]).ph <= Run(high, low).ph && Run(high[..n], low[..n]).pl <= Run(high, low).pl
    decreases |high|
  {
    hide Inv, Found, IndexSafe;
    if n == |high| {
      assert high[..n] == high && low[..n] == low;
    } else {
      assert Front(high)[..n] == high[..n] && Front(low)[..n] == low[..n];
      ListsOnlyGrow(Front(high), Front(low), n);
      RunUnfolds(high, low);
    }
  }

  // ---------- pivots are extremes ----------

  /** The call on candle r appends k. */
  ghost predicate FoundOn(high: seq<real>, low: seq<real>, hi: bool, k: nat, r: nat)
    requires |high| == |low| && r < |high|
  {
    Run(high[..r + 1], low[..r + 1]) == Append(Run(high[..r], low[..r]), hi, k)
  }

  /** The call on candle r makes k a pivot because of candle c: k is the rightmost extreme of the candles
      after the previous pivot up to c - 1, and c clears both it and its own predecessor. Only when r is
      the call that runs into the timeout, 51 candles after the previous pivot, need c not clear k, and c
      may then be r itself. */
  ghost predicate ConfirmedBy(high: seq<real>, low: seq<real>, hi: bool, prev: nat, k: nat, c: nat, r: nat)
    requires |high| == |low|
  {
    && k < c <= r < |high| && r <= prev + 51 && FoundOn(high, low, hi, k, r)
    && IsRightmostExtreme(Key(high, low, hi), hi, prev, c - 1, k)
    && (Clears(high, low, hi, k, c) || r == prev + 51)
    && (NextClears(high, low, hi, c - 1) || c == r == prev + 51)
  }

  ghost predicate Confirmed(high: seq<real>, low: seq<real>, hi: bool, prev: nat, k: nat)
    requires |high| == |low|
  {
    exists c: nat, r: nat :: ConfirmedBy(high, low, hi, prev, k, c, r)
  }

  ghost predicate HighConfirmed(high: seq<real>, low: seq<real>, p: Pivots, off: nat, i: nat)
    requires |high| == |low|
  {
    && 1 <= i < |p.ph| && i - 1 + off < |p.pl|
    && Confirmed(high, low, true, p.pl[i - 1 + off], p.ph[i])
  }

  ghost predicate LowConfirmed(high: seq<real>, low: seq<real>, p: Pivots, off: nat, i: nat)
    requires |high| == |low|
  {
    && 1 <= i < |p.pl| && off <= i && i - off < |p.ph|
    && Confirmed(high, low, false, p.ph[i - off], p.pl[i])
  }

  ghost predicate AllConfirmed(high: seq<real>, low: seq<real>, p: Pivots)
    requires |high| == |low|
  {
    && (forall i :: 1 <= i < |p.ph| ==> HighConfirmed(high, low, p, Off(p), i))
    && (forall i :: 1 <= i < |p.pl| ==> LowConfirmed(high, low, p, Off(p), i))
  }

  /** Every pivot after the first of its kind is the rightmost extreme since the previous pivot. */
  lemma {:induction false} PivotsAreExtremes(high: seq<real>, low: seq<real>)
    requires |high| == |low|
    ensures AllConfirmed(high, low, Run(high, low))
  {
    if |high| == 0 {
    } else {
      var h, l := Front(high), Front(low);
      PivotsAreExtremes(h, l);
      var p := Run(h, l);
      StillConfirmed(high, low, p);
      var f := Found(high, low, |high| - 1, p);
      if f.Some? {
        NewIsConfirmed(high, low);
        FoundIsNext(high, low, p);
        StepKeepsShape(p, LookForHigh(p), f.value);
        AppendConfirmed(high, low, p, LookForHigh(p), f.value);
      }
    }
  }

  /** A new candle does not unsettle what is already confirmed. */
  lemma {:induction false} StillConfirmed(high: seq<real>, low: seq<real>, p: Pivots)
    requires |high| == |low| > 0 && AllConfirmed(Front(high), Front(low), p)
    ensures AllConfirmed(high, low, p)
  {
    hide Confirmed, Run;
    var h, l := Front(high), Front(low);
    var off := Off(p);
    forall i | 1 <= i < |p.ph| ensures HighConfirmed(high, low, p, off, i) {
      assert HighConfirmed(h, l, p, off, i);
      ConfirmedLater(high, low, true, p.pl[i - 1 + off], p.ph[i]);
    }
    forall i | 1 <= i < |p.pl| ensures LowConfirmed(high, low, p, off, i) {
      assert LowConfirmed(h, l, p, off, i);
      ConfirmedLater(high, low, false, p.ph[i - off], p.pl[i]);
    }
  }

  lemma {:induction false} FoundLater(high: seq<real>, low: seq<real>, hi: bool, k: nat, r: nat)
    requires |high| == |low| > 0 && r < |high| - 1 && FoundOn(Front(high), Front(low), hi, k, r)
    ensures FoundOn(high, low, hi, k, r)
  {
    hide Run;
    var h, l := Front(high), Front(low);
    assert h[..r] == high[..r] && l[..r] == low[..r] && h[..r + 1] == high[..r + 1] && l[..r + 1] == low[..r + 1];
  }

  lemma {:induction false} ConfirmedLater(high: seq<real>, low: seq<real>, hi: bool, prev: nat, k: nat)
    requires |high| == |low| > 0 && Confirmed(Front(high), Front(low), hi, prev, k)
    ensures Confirmed(high, low, hi, prev, k)
  {
    hide FoundOn;
    var h, l := Front(high), Front(low);
    var c: nat, r: nat :| ConfirmedBy(h, l, hi, prev, k, c, r);
    assert forall f :: 0 <= f < |h| ==> Key(h, l, hi)[f] == Key(high, low, hi)[f];
    assert NextClears(h, l, hi, c - 1) ==> NextClears(high, low, hi, c - 1);
    FoundLater(high, low, hi, k, r);
    assert ConfirmedBy(high, low, hi, prev, k, c, r);
  }

  lemma {:induction false} NewIsConfirmed(high: seq<real>, low: seq<real>)
    requires |high| == |low| > 0
    ensures var p := Run(Front(high), Front(low));
            var f := Found(high, low, |high| - 1, p);
            |p.ph| > 0 && |p.pl| > 0 && f.Some? ==> Confirmed(high, low, LookForHigh(p), Latest(p), f.value)
  {
    hide Inv, Scan, FoundOn, IsRightmostExtreme, Clears, NextClears, IndexSafe;
    var p, r := Run(Front(high), Front(low)), |high| - 1;
    var q := QueryOf(high, low, r, p);
    var found := Scan(q, SearchStart(p));
    if |p.ph| > 0 && |p.pl| > 0 && found.Some? {
      NewIsFound(high, low);
      NewIsExtreme(high, low, p);
      assert ConfirmedBy(high, low, q.hi, Latest(p), Candidate(q, found.value), found.value + 1, r);
    }
  }

  lemma {:induction false} NewIsFound(high: seq<real>, low: seq<real>)
    requires |high| == |low| > 0
    ensures var p := Run(Front(high), Front(low));
            var f := Found(high, low, |high| - 1, p);
            f.Some? ==> FoundOn(high, low, LookForHigh(p), f.value, |high| - 1)
  {
    hide Inv, Found;
    var r := |high| - 1;
    assert high[..r] == Front(high) && low[..r] == Front(low) && high[..r + 1] == high && low[..r + 1] == low;
    RunUnfolds(high, low);
  }

  lemma {:induction false} NewIsExtreme(high: seq<real>, low: seq<real>, p: Pivots)
    requires |high| == |low| > 0 && IndexSafe(p) && Inv(Front(high), Front(low), p)
    requires |p.ph| > 0 && |p.pl| > 0 && Scan(QueryOf(high, low, |high| - 1, p), SearchStart(p)).Some?
    ensures var q := QueryOf(high, low, |high| - 1, p);
            var i := Scan(q, SearchStart(p)).value;
            var k, c, prev := Candidate(q, i), i + 1, Latest(p);
            && k < c <= |high| - 1 <= prev + 51
            && IsRightmostExtreme(Key(high, low, q.hi), q.hi, prev, c - 1, k)
            && (Clears(high, low, q.hi, k, c) || |high| - 1 == prev + 51)
            && (NextClears(high, low, q.hi, c - 1) || c == |high| - 1 == prev + 51)
  {
    var q := QueryOf(high, low, |high| - 1, p);
    ScanFindsFirst(q, SearchStart(p));
    ShapeOrder(p);
    ExtremeIsRightmost(Key(high, low, q.hi), q.hi, q.floor, Scan(q, SearchStart(p)).value);
  }

  lemma {:induction false} AppendConfirmed(high: seq<real>, low: seq<real>, p: Pivots, hi: bool, k: nat)
    requires |high| == |low| && IndexSafe(p) && Shape(p) && AllConfirmed(high, low, p)
    requires hi == LookForHigh(p) && Shape(Append(p, hi, k))
    requires |p.ph| > 0 && |p.pl| > 0 ==> Confirmed(high, low, hi, Latest(p), k)
    ensures AllConfirmed(high, low, Append(p, hi, k))
  {
    hide Confirmed, Inv, Run;
    ShapeOrder(p);
    var p' := Append(p, hi, k);
    var off := Off(p');
    forall i | 1 <= i < |p'.ph| ensures HighConfirmed(high, low, p', off, i) {
      assert i < |p.ph| ==> HighConfirmed(high, low, p, off, i);
    }
    forall i | 1 <= i < |p'.pl| ensures LowConfirmed(high, low, p', off, i) {
      assert i < |p.pl| ==> LowConfirmed(high, low, p, off, i);
    }
  }
}
