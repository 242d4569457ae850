/** The pivot detector of strat_helpers.go as a pure step function.

    One candle of findPivots looks either for a pivot high or for a pivot low. The two
    searches mirror each other, so they are described once, with `hi` telling which of
    the two is meant. */
module PivotSpec {

  /** A pivot is forced once more than this many candles have passed without one. */
  const MAX_NO_PIVOTS_CANDLES := 50

  /** The two index lists behind the pointers `*ph` and `*pl`. */
  datatype Pivots = Pivots(ph: seq<nat>, pl: seq<nat>)

  datatype Option<+T> = None | Some(value: T)

  /** Candle j is strictly beyond candle i in both series: below it when a high is to be
      confirmed, above it when a low is. */
  predicate Clears(high: seq<real>, low: seq<real>, hi: bool, i: nat, j: nat)
    requires i < |high| == |low| && j < |high|
  {
    if hi then low[j] < low[i] && high[j] < high[i]
    else high[j] > high[i] && low[j] > low[i]
  }

  /** The candle after i is strictly beyond it. */
  predicate NextClears(high: seq<real>, low: seq<real>, hi: bool, i: nat)
    requires i + 1 < |high| == |low|
  {
    Clears(high, low, hi, i, i + 1)
  }

  /** The series whose extreme becomes the pivot. */
  function Key(high: seq<real>, low: seq<real>, hi: bool): seq<real> {
    if hi then high else low
  }

  predicate Beats(hi: bool, x: real, y: real) {
    if hi then x > y else x < y
  }

  /** Index of the rightmost extreme of k over the candles floor+1 .. i. */
  function Extreme(k: seq<real>, hi: bool, floor: nat, i: nat): (p: nat)
    requires floor < i < |k|
    ensures floor < p <= i
    decreases i - floor
  {
    if floor + 1 == i then i
    else
      var p := Extreme(k, hi, floor + 1, i);
      if Beats(hi, k[floor + 1], k[p]) then floor + 1 else p
  }

  /** p is the rightmost extreme: nothing in the range beats it and it beats everything to its right. */
  ghost predicate IsRightmostExtreme(k: seq<real>, hi: bool, floor: nat, i: nat, p: nat) {
    && floor < p <= i < |k|
    && (forall f :: floor < f <= i ==> !Beats(hi, k[f], k[p]))
    && (forall f :: p < f <= i ==> Beats(hi, k[p], k[f]))
  }

  lemma {:induction false} ExtremeIsRightmost(k: seq<real>, hi: bool, floor: nat, i: nat)
    requires floor < i < |k|
    ensures IsRightmostExtreme(k, hi, floor, i, Extreme(k, hi, floor, i))
    decreases i - floor
  {
    if floor + 1 >= i {
    } else {
      ExtremeIsRightmost(k, hi, floor + 1, i);
    }
  }

  /** Neither of the list accesses of findPivots lands in an empty list. */
  predicate IndexSafe(p: Pivots) {
    && (|p.ph| == 0 ==> |p.pl| == 0)
    && (|p.pl| == 0 ==> |p.ph| <= 1)
  }

  function Last(s: seq<nat>): nat {
    if |s| == 0 then 0 else s[|s| - 1]
  }

  function Max(a: nat, b: nat): nat {
    if a < b then b else a
  }

  /** Index of the latest pivot of either kind, 0 when there is none. */
  function Latest(p: Pivots): nat {
    Max(Last(p.ph), Last(p.pl))
  }

  predicate LookForHigh(p: Pivots)
    requires IndexSafe(p)
  {
    if |p.ph| == 1 && |p.pl| == 0 then false
    else if |p.ph| == 0 && |p.pl| == 0 then true
    else Last(p.ph) < Last(p.pl)
  }

  function SearchStart(p: Pivots): nat
    requires IndexSafe(p)
  {
    if |p.ph| == 0 || |p.pl| == 0 then Latest(p) else Max(1, Latest(p)) + 1
  }

  /** One search: what is looked for, the list it extends, whether earlier candles are
      searched for a better extreme, back to which pivot, and whether the timeout applies. */
  datatype Query = Query(high: seq<real>, low: seq<real>, hi: bool, xs: seq<nat>, back: bool, floor: nat, late: bool)

  predicate ValidQuery(q: Query) {
    |q.high| == |q.low|
  }

  function QueryOf(high: seq<real>, low: seq<real>, rel: nat, p: Pivots): Query
    requires IndexSafe(p)
  {
    var hi := LookForHigh(p);
    Query(high, low, hi, if hi then p.ph else p.pl,
          |p.ph| > 0 && |p.pl| > 0, Latest(p),
          rel - Last(if hi then p.pl else p.ph) > MAX_NO_PIVOTS_CANDLES)
  }

  /** The pivot candidate when candle i + 1 is examined. */
  function Candidate(q: Query, i: nat): (k: nat)
    requires ValidQuery(q) && i + 1 < |q.high|
    ensures k <= i
  {
    if q.back && q.floor < i then Extreme(Key(q.high, q.low, q.hi), q.hi, q.floor, i) else i
  }

  /** Candle i + 1 makes Candidate(q, i) a pivot. */
  predicate Accepts(q: Query, i: nat)
    requires ValidQuery(q) && i + 1 < |q.high|
  {
    && (NextClears(q.high, q.low, q.hi, i) || (q.late && i + 1 == |q.high| - 1))
    && i !in q.xs
    && (q.back && i > 0 ==> Clears(q.high, q.low, q.hi, Candidate(q, i), i + 1) || q.late)
    && Candidate(q, i) !in q.xs
  }

  /** The first accepting position from i on. */
  function Scan(q: Query, i: nat): (r: Option<nat>)
    requires ValidQuery(q)
    ensures r.Some? ==> i <= r.value && r.value + 1 < |q.high|
    decreases |q.high| - i
  {
    if i + 1 >= |q.high| then None
    else if Accepts(q, i) then Some(i)
    else Scan(q, i + 1)
  }

  lemma {:induction false} ScanFindsFirst(q: Query, i: nat)
    requires ValidQuery(q)
    ensures var r := Scan(q, i);
            && (r.Some? ==> Accepts(q, r.value))
            && (forall j :: i <= j && j + 1 < |q.high| && (r.Some? ==> j < r.value) ==> !Accepts(q, j))
    decreases |q.high| - i
  {
    if i + 1 >= |q.high| || Accepts(q, i) {
    } else {
      ScanFindsFirst(q, i + 1);
    }
  }

  /** The index found by one call of findPivots, if any. */
  function Found(high: seq<real>, low: seq<real>, rel: nat, p: Pivots): Option<nat>
    requires IndexSafe(p) && |high| == |low|
  {
    var q := QueryOf(high, low, rel, p);
    match Scan(q, SearchStart(p))
    case None => None
    case Some(i) => Some(Candidate(q, i))
  }

  /** One call of findPivots on the two lists. */
  function Step(high: seq<real>, low: seq<real>, rel: nat, p: Pivots): Pivots
    requires IndexSafe(p) && |high| == |low|
  {
    match Found(high, low, rel, p)
    case None => p
    case Some(k) => if LookForHigh(p) then p.(ph := p.ph + [k]) else p.(pl := p.pl + [k])
  }
}
