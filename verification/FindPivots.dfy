/** findPivots and checkExists (strat_helpers.go), which append through the pointers
    `*ph` and `*pl` and write the label maps. */
module FindPivots {
  import opened PivotSpec

  /** The lists the caller keeps between candles. */
  class PivotLists {
    var ph: seq<nat>
    var pl: seq<nat>

    constructor ()
      ensures View() == Pivots([], [])
    {
      ph, pl := [], [];
    }

    function View(): Pivots
      reads this
    {
      Pivots(ph, pl)
    }
  }

  /** The label maps written by findPivots: bars back -> text. */
  class Labels {
    var top: map<int, string>
    var bottom: map<int, string>

    constructor ()
      ensures top == map[] && bottom == map[]
    {
      top, bottom := map[], map[];
    }
  }

  method CheckExists(val: nat, slice: seq<nat>) returns (found: bool)
    ensures found <==> val in slice
  {
    found := false;
    for n := 0 to |slice|
      invariant !found && val !in slice[..n]
    {
      if slice[n] == val {
        return true;
      }
    }
    assert slice[..|slice|] == slice;
  }

  /** The backward search: the best candle of (floor, i], the later one on ties. */
  method SearchBack(k: seq<real>, hi: bool, floor: nat, i: nat) returns (p: nat)
    requires i < |k|
    ensures p == if floor < i then Extreme(k, hi, floor, i) else i
  {
    p := i;
    var f := i - 1;
    while f > floor
      invariant floor < i ==> floor <= f < i && p == Extreme(k, hi, f, i)
      invariant floor >= i ==> f < floor && p == i
    {
      if Beats(hi, k[f], k[p]) {
        p := f;
      }
      f := f - 1;
    }
  }

  /** The body of the search for a pivot high: the candidate that candle i + 1 confirms, if any. */
  method ExamineHigh(high: seq<real>, low: seq<real>, i: nat, ph: seq<nat>, pl: seq<nat>, noPivotCandles: int,
                     ghost q: Query)
    returns (r: Option<nat>)
    requires |high| == |low| && i + 1 < |low|
    requires q == Query(high, low, true, ph, |ph| > 0 && |pl| > 0, Max(Last(ph), Last(pl)),
                        noPivotCandles > MAX_NO_PIVOTS_CANDLES)
    ensures r == if Accepts(q, i) then Some(Candidate(q, i)) else None
  {
    r := None;
    if (low[i + 1] < low[i] && high[i + 1] < high[i])
       || (noPivotCandles > MAX_NO_PIVOTS_CANDLES && i + 1 == |low| - 1) {
      var found := CheckExists(i, ph);
      if found {
        return;
      }
      var newPHIndex := i;
      if |pl| > 0 && |ph| > 0 && newPHIndex > 0 {
        newPHIndex := SearchBack(high, true, Max(ph[|ph| - 1], pl[|pl| - 1]), i);
        if !(low[i + 1] < low[newPHIndex] && high[i + 1] < high[newPHIndex])
           && !(noPivotCandles > MAX_NO_PIVOTS_CANDLES) {
          return;
        }
      }
      found := CheckExists(newPHIndex, ph);
      if !found {
        r := Some(newPHIndex);
      }
    }
  }

  /** The body of the search for a pivot low. */
  method ExamineLow(high: seq<real>, low: seq<real>, i: nat, ph: seq<nat>, pl: seq<nat>, noPivotCandles: int,
                    ghost q: Query)
    returns (r: Option<nat>)
    requires |high| == |low| && i + 1 < |high|
    requires q == Query(high, low, false, pl, |ph| > 0 && |pl| > 0, Max(Last(ph), Last(pl)),
                        noPivotCandles > MAX_NO_PIVOTS_CANDLES)
    ensures r == if Accepts(q, i) then Some(Candidate(q, i)) else None
  {
    r := None;
    if (high[i + 1] > high[i] && low[i + 1] > low[i])
       || (noPivotCandles > MAX_NO_PIVOTS_CANDLES && i + 1 == |high| - 1) {
      var found := CheckExists(i, pl);
      if found {
        return;
      }
      var newPLIndex := i;
      if |ph| > 0 && |pl| > 0 && newPLIndex > 0 {
        newPLIndex := SearchBack(low, false, Max(ph[|ph| - 1], pl[|pl| - 1]), i);
        if !(high[i + 1] > high[newPLIndex] && low[i + 1] > low[newPLIndex])
           && !(noPivotCandles > MAX_NO_PIVOTS_CANDLES) {
          return;
        }
      }
      found := CheckExists(newPLIndex, pl);
      if !found {
        r := Some(newPLIndex);
      }
    }
  }

  method FindPivots(high: seq<real>, low: seq<real>, relCandleIndex: nat, lists: PivotLists, labels: Labels)
    returns (foundPL: bool)
    requires |high| == |low| && IndexSafe(lists.View())
    modifies lists, labels
    ensures lists.View() == Step(high, low, relCandleIndex, old(lists.View()))
    ensures foundPL <==> lists.pl != old(lists.pl)
    ensures var found := Found(high, low, relCandleIndex, old(lists.View()));
            var hi := LookForHigh(old(lists.View()));
            && labels.top == (if found.Some? && hi
                              then old(labels.top)[relCandleIndex - found.value := "H"] else old(labels.top))
            && labels.bottom == (if found.Some? && !hi
                                 then old(labels.bottom)[relCandleIndex - found.value := "L"] else old(labels.bottom))
  {
    foundPL := false;
    ghost var q := QueryOf(high, low, relCandleIndex, lists.View());

    var lastPH, lastPL := Last(lists.ph), Last(lists.pl);
    var lookForHigh;
    if |lists.ph| == 1 && |lists.pl| == 0 {
      lookForHigh := false;
    } else if |lists.ph| == 0 && |lists.pl| == 0 {
      lookForHigh := true;
    } else if lists.ph[|lists.ph| - 1] < lists.pl[|lists.pl| - 1] {
      lookForHigh := true;
    } else {
      lookForHigh := false;
    }

    var newPivotSearchStartIndex := 0;
    if |lists.ph| == 0 && |lists.pl| == 0 {
      newPivotSearchStartIndex := 0;
    } else if |lists.ph| == 0 {
      newPivotSearchStartIndex := lastPL;
    } else if |lists.pl| == 0 {
      newPivotSearchStartIndex := lastPH;
    } else {
      newPivotSearchStartIndex := Max(1, Max(lastPH, lastPL));
      newPivotSearchStartIndex := newPivotSearchStartIndex + 1; // never both pivots on one candle
    }
    assert newPivotSearchStartIndex == SearchStart(lists.View());

    var i := newPivotSearchStartIndex;
    var accepted := None;
    if lookForHigh {
      var noPivotCandles := relCandleIndex - lastPL;
      while i + 1 < |low| && i + 1 < |high| && accepted == None
        invariant i >= newPivotSearchStartIndex && unchanged(lists) && unchanged(labels)
        invariant if accepted.Some? then Found(high, low, relCandleIndex, lists.View()) == accepted
                  else Scan(q, newPivotSearchStartIndex) == Scan(q, i)
        decreases accepted == None, |high| - i
      {
        accepted := ExamineHigh(high, low, i, lists.ph, lists.pl, noPivotCandles, q);
        i := i + 1;
      }
      if accepted.Some? {
        lists.ph := lists.ph + [accepted.value];
        labels.top := labels.top[relCandleIndex - accepted.value := "H"];
      }
    } else {
      var noPivotCandles := relCandleIndex - lastPH;
      while i + 1 < |high| && i + 1 < |low| && accepted == None
        invariant i >= newPivotSearchStartIndex && unchanged(lists) && unchanged(labels)
        invariant if accepted.Some? then Found(high, low, relCandleIndex, lists.View()) == accepted
                  else Scan(q, newPivotSearchStartIndex) == Scan(q, i)
        decreases accepted == None, |high| - i
      {
        accepted := ExamineLow(high, low, i, lists.ph, lists.pl, noPivotCandles, q);
        i := i + 1;
      }
      if accepted.Some? {
        lists.pl := lists.pl + [accepted.value];
        labels.bottom := labels.bottom[relCandleIndex - accepted.value := "L"];
        foundPL := true;
      }
    }
  }
}
