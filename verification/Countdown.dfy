/** The number strat1 returns (user_strats.go): how many pivots are missing from the current round, a round
    being one high and one low more than are asked for to enter. */
module Countdown {
  import opened Strategy
  import opened PivotSpec
  import opened PivotRuns

  lemma {:induction false} SameRemainder(n: int, q: int, r: int, q': int, r': int)
    requires n * q + r == n * q' + r' && 0 <= r < n && 0 <= r' < n
    ensures r == r'
  {
    if q != q' {
      Apart(n, if q > q' then q else q', if q > q' then q' else q);
    }
  }

  lemma {:induction false} Apart(n: int, q: int, q': int)
    requires n > 0 && q > q'
    ensures n * q >= n * q' + n
  {
    var d := q - q';
    assert n * (q' + d) == n * q' + n * d;
    assert n * d >= n;
  }

  lemma {:induction false} RemainderIs(x: int, n: int, q: int, r: int)
    requires n > 0 && x == n * q + r && 0 <= r < n
    ensures x % n == r
  {
    SameRemainder(n, q, r, x / n, x % n);
  }

  lemma {:induction false} RemainderNext(x: nat, n: int)
    requires n > 1
    ensures (x + 1) % n == if x % n == n - 1 then 0 else x % n + 1
  {
    var q, r := x / n, x % n;
    assert x == n * q + r;
    if r == n - 1 {
      assert n * (q + 1) == n * q + n;
      RemainderIs(x + 1, n, q + 1, 0);
    } else {
      RemainderIs(x + 1, n, q, r + 1);
    }
  }

  /** How many more pivots of a kind there are to find before one of them completes a round of count + 1. */
  predicate Missing(found: nat, count: int, m: int)
    requires count >= 0
  {
    0 <= m <= count && (found + m + 1) % (count + 1) == 0
  }

  /** There is only one such number. */
  lemma {:induction false} MissingIs(found: nat, count: int, m: int)
    requires count >= 0 && Missing(found, count, m)
    ensures m == count - found % (count + 1)
  {
    var n, t := count + 1, found + m + 1;
    var q := t / n;
    assert t == n * q + t % n;
    assert n * (q - 1) == n * q - n;
    RemainderIs(found, n, q - 1, count - m);
  }

  lemma {:induction false} SomeMissing(found: nat, count: int) returns (m: int)
    requires count >= 0
    ensures m == count - found % (count + 1) && Missing(found, count, m)
  {
    var n := count + 1;
    var q, r := found / n, found % n;
    assert found == n * q + r;
    assert n * (q + 1) == n * q + n;
    RemainderIs(found + (count - r) + 1, n, q + 1, 0);
    m := count - r;
  }

  /** The number is that of the highs and the lows still missing; when all highs are missing no low counts as
      found. */
  lemma {:induction false} NumberIsMissing(p: Pivots, params: Params) returns (h: int, l: int)
    requires params.pivotLowsToEnter >= 0
    ensures Missing(|p.ph|, params.pivotLowsToEnter, h) && Missing(|p.pl|, params.pivotLowsToEnter, l)
    ensures Returned(p, params) == if h == params.pivotLowsToEnter then 2 * h else h + l
  {
    h := SomeMissing(|p.ph|, params.pivotLowsToEnter);
    l := SomeMissing(|p.pl|, params.pivotLowsToEnter);
  }

  /** The number lies between zero and twice the count, and is the latter exactly after whole rounds of highs. */
  lemma {:induction false} NumberInRange(p: Pivots, params: Params)
    requires params.pivotLowsToEnter >= 0
    ensures 0 <= Returned(p, params) <= 2 * params.pivotLowsToEnter
    ensures Returned(p, params) == 2 * params.pivotLowsToEnter <==> |p.ph| % (params.pivotLowsToEnter + 1) == 0
  {
  }

  /** The number after one more pivot. Each lowers it by one, except: at twice the count it stays for a low; at
      zero a low sets it to the count; the high that completes a round sets it to twice the count; and the first
      high of a round goes two down if the run's first high and low share a candle, its low having come first. */
  function NextNumber(p: Pivots, count: int, before: int, low: bool): int
    requires count >= 1
  {
    if low then
      if before == 2 * count then before else if before == 0 then count else before - 1
    else if |p.ph| % (count + 1) == count then 2 * count
    else if before == 2 * count && Off(p) == 1 then before - 2
    else before - 1
  }

  /** How the number moves from candle to candle of every run, of either shape. */
  lemma {:induction false} EveryPivotCountsDown(high: seq<real>, low: seq<real>, params: Params)
    requires |high| == |low| > 0 && params.pivotLowsToEnter >= 1
    ensures var p, p' := Run(Front(high), Front(low)), Run(high, low);
            Returned(p', params)
            == if p' == p then Returned(p, params)
               else NextNumber(p, params.pivotLowsToEnter, Returned(p, params), p'.ph == p.ph)
  {
    hide Run, Returned, NextNumber;
    OneMore(high, low);
    OnePivot(Run(Front(high), Front(low)), Run(high, low), params);
  }

  /** One pivot more: a high when the highs have caught up with the lows, or else a low. */
  predicate OneMorePivot(p: Pivots, p': Pivots) {
    && 0 <= |p.ph| + Off(p) - |p.pl| <= 1
    && if |p.ph| + Off(p) == |p.pl| then |p'.ph| == |p.ph| + 1 && p'.pl == p.pl
       else p'.ph == p.ph && |p'.pl| == |p.pl| + 1
  }

  lemma {:induction false} OneMore(high: seq<real>, low: seq<real>)
    requires |high| == |low| > 0
    ensures var p, p' := Run(Front(high), Front(low)), Run(high, low); p' == p || OneMorePivot(p, p')
  {
    hide Found;
    RunUnfolds(high, low);
    ShapeOrder(Run(Front(high), Front(low)));
  }

  lemma {:induction false} OnePivot(p: Pivots, p': Pivots, params: Params)
    requires params.pivotLowsToEnter >= 1 && (p' == p || OneMorePivot(p, p'))
    ensures Returned(p', params)
            == if p' == p then Returned(p, params)
               else NextNumber(p, params.pivotLowsToEnter, Returned(p, params), p'.ph == p.ph)
  {
    RemainderNext(|p.ph|, params.pivotLowsToEnter + 1);
    RemainderNext(|p.pl|, params.pivotLowsToEnter + 1);
  }
}
