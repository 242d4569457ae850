/** pivotWatchEntryCheck (user_func_helpers.go): pivot lows that close a series of lower lows. */
module EntryWatch {
  import opened PivotRuns
  import opened PivotTheorems

  /** Where the first loop leaves its slice index: at the pivot that completes the count of
      pivots after startSearchIndex. */
  function SearchFrom(pl: seq<nat>, count: int, startSearchIndex: int, plsi: nat, seen: nat, at: nat): nat
    requires plsi <= |pl|
    decreases |pl| - plsi
  {
    if plsi == |pl| then at
    else
      var seen' := if pl[plsi] > startSearchIndex then seen + 1 else seen;
      var at' := if pl[plsi] > startSearchIndex then plsi else at;
      if seen' >= count then at' else SearchFrom(pl, count, startSearchIndex, plsi + 1, seen', at')
  }

  /** Pivot low j is below the one before it. */
  predicate StepsDown(lows: seq<real>, pl: seq<nat>, j: nat)
    requires 1 <= j < |pl| && Priced(lows, pl)
  {
    lows[pl[j]] < lows[pl[j - 1]]
  }

  /** The last `count` pivot lows up to position i strictly descend in price. */
  predicate Descends(lows: seq<real>, pl: seq<nat>, count: int, i: nat)
    requires i < |pl| && count - 1 <= i && Priced(lows, pl)
  {
    forall j :: i - count + 1 < j <= i ==> StepsDown(lows, pl, j)
  }

  predicate Priced(lows: seq<real>, pl: seq<nat>) {
    forall i :: 0 <= i < |pl| ==> pl[i] < |lows|
  }

  /** The pivot lows from position i on that close a descending series, in order. */
  function Entries(lows: seq<real>, pl: seq<nat>, count: int, i: nat): seq<nat>
    requires i <= |pl| && count - 1 <= i && Priced(lows, pl)
    decreases |pl| - i
  {
    if i == |pl| then []
    else (if Descends(lows, pl, count, i) then [pl[i]] else []) + Entries(lows, pl, count, i + 1)
  }

  /** The search never reaches below position 0 of the pivot lows. */
  predicate Searchable(pl: seq<nat>, count: int, startSearchIndex: int) {
    |pl| >= count ==> SearchFrom(pl, count, startSearchIndex, 0, 0, 0) >= count - 1
  }

  function Watch(lows: seq<real>, pl: seq<nat>, count: int, startSearchIndex: int): seq<nat>
    requires Priced(lows, pl) && Searchable(pl, count, startSearchIndex)
  {
    if |pl| < count then [] else
      SearchFromInRange(pl, count, startSearchIndex, 0, 0, 0);
      Entries(lows, pl, count, SearchFrom(pl, count, startSearchIndex, 0, 0, 0))
  }

  lemma {:induction false} SearchFromInRange(pl: seq<nat>, count: int, start: int, plsi: nat, seen: nat, at: nat)
    requires plsi <= |pl| && (at == 0 || at < |pl|)
    ensures var r := SearchFrom(pl, count, start, plsi, seen, at); r == 0 || r < |pl|
    decreases |pl| - plsi
  {
    if plsi == |pl| {
    } else {
      var seen', at' := if pl[plsi] > start then seen + 1 else seen, if pl[plsi] > start then plsi else at;
      if seen' < count {
        SearchFromInRange(pl, count, start, plsi + 1, seen', at');
      }
    }
  }

  lemma {:induction false} EntriesListed(lows: seq<real>, pl: seq<nat>, count: int, i: nat)
    requires i <= |pl| && count - 1 <= i && Priced(lows, pl)
    ensures forall x :: x in Entries(lows, pl, count, i) ==> x < |lows|
    decreases |pl| - i
  {
    hide Descends;
    if i == |pl| {
    } else {
      EntriesListed(lows, pl, count, i + 1);
    }
  }

  /** Every low the search returns is the index of a candle. */
  lemma {:induction false} WatchListed(lows: seq<real>, pl: seq<nat>, count: int, startSearchIndex: int)
    requires Priced(lows, pl) && Searchable(pl, count, startSearchIndex)
    ensures forall x :: x in Watch(lows, pl, count, startSearchIndex) ==> x < |lows|
  {
    if |pl| >= count {
      SearchFromInRange(pl, count, startSearchIndex, 0, 0, 0);
      EntriesListed(lows, pl, count, SearchFrom(pl, count, startSearchIndex, 0, 0, 0));
    }
  }

  /** Find the position in the pivot lows to start searching from. */
  method FindSearchStart(pl: seq<nat>, entryWatchPivotCount: int, startSearchIndex: int) returns (searchStart: nat)
    ensures searchStart == SearchFrom(pl, entryWatchPivotCount, startSearchIndex, 0, 0, 0)
  {
    searchStart := 0;
    var increment, plsi := 0, 0;
    while plsi < |pl|
      invariant 0 <= plsi <= |pl| && increment >= 0
      invariant SearchFrom(pl, entryWatchPivotCount, startSearchIndex, 0, 0, 0)
             == SearchFrom(pl, entryWatchPivotCount, startSearchIndex, plsi, increment, searchStart)
    {
      if pl[plsi] > startSearchIndex {
        increment := increment + 1;
        searchStart := plsi;
      }
      if increment >= entryWatchPivotCount {
        return;
      }
      plsi := plsi + 1;
    }
  }

  /** Compare the previous lows, count = entryWatchPivotCount. */
  method LowerLows(lows: seq<real>, pl: seq<nat>, entryWatchPivotCount: int, i: nat) returns (entryConditionsTrue: bool)
    requires i < |pl| && entryWatchPivotCount - 1 <= i && Priced(lows, pl)
    ensures entryConditionsTrue == Descends(lows, pl, entryWatchPivotCount, i)
  {
    var j := 0;
    while j < entryWatchPivotCount - 1
      invariant 0 <= j && (j <= entryWatchPivotCount - 1 || j == 0)
      invariant forall k :: i - j < k <= i ==> StepsDown(lows, pl, k)
    {
      var ciEarlier := pl[i - j - 1];
      var ciLater := pl[i - j];
      if !(lows[ciLater] < lows[ciEarlier]) {
        assert !StepsDown(lows, pl, i - j);
        return false;
      }
      j := j + 1;
    }
    return true;
  }

  method PivotWatchEntryCheck(lows: seq<real>, pivotLowIndexes: seq<nat>, entryWatchPivotCount: int,
                              startSearchIndex: int)
    returns (retIndexes: seq<nat>)
    requires Priced(lows, pivotLowIndexes) && Searchable(pivotLowIndexes, entryWatchPivotCount, startSearchIndex)
    ensures retIndexes == Watch(lows, pivotLowIndexes, entryWatchPivotCount, startSearchIndex)
  {
    retIndexes := [];
    if |pivotLowIndexes| < entryWatchPivotCount {
      return;
    }
    var searchStart := FindSearchStart(pivotLowIndexes, entryWatchPivotCount, startSearchIndex);
    SearchFromInRange(pivotLowIndexes, entryWatchPivotCount, startSearchIndex, 0, 0, 0);
    ghost var all := Entries(lows, pivotLowIndexes, entryWatchPivotCount, searchStart);
    var i := searchStart;
    while i < |pivotLowIndexes|
      invariant searchStart <= i <= |pivotLowIndexes|
      invariant all == retIndexes + Entries(lows, pivotLowIndexes, entryWatchPivotCount, i)
    {
      ghost var rest := Entries(lows, pivotLowIndexes, entryWatchPivotCount, i + 1);
      var entryConditionsTrue := LowerLows(lows, pivotLowIndexes, entryWatchPivotCount, i);
      if entryConditionsTrue {
        assert all == (retIndexes + [pivotLowIndexes[i]]) + rest;
        retIndexes := retIndexes + [pivotLowIndexes[i]];
      }
      i := i + 1;
    }
  }

  // ---------- on the lists of a run ----------

  /** With every pivot after the start index, the search starts at position count - 1. */
  lemma {:induction false} SearchFromAllAfter(pl: seq<nat>, count: int, start: int, plsi: nat, at: nat)
    requires plsi <= |pl| && forall i :: 0 <= i < |pl| ==> pl[i] > start
    requires plsi < count <= |pl| || (count <= 1 && plsi == 0 && at == 0)
    ensures SearchFrom(pl, count, start, plsi, plsi, at) == if count <= 1 then 0 else count - 1
    decreases |pl| - plsi
  {
    if plsi == |pl| || plsi + 1 >= count {
    } else {
      SearchFromAllAfter(pl, count, start, plsi + 1, plsi);
    }
  }

  /** What Entries returns: the closing lows, and in the order of the list. */
  ghost predicate AreEntries(xs: seq<nat>, lows: seq<real>, pl: seq<nat>, count: int, i: nat)
    requires i <= |pl| && count - 1 <= i && Priced(lows, pl)
  {
    && Increasing(xs)
    && (forall x :: x in xs ==> x in pl[i..])
    && (forall k :: i <= k < |pl| ==> (pl[k] in xs <==> Descends(lows, pl, count, k)))
  }

  lemma {:induction false} PrependIncreasing(x: nat, xs: seq<nat>)
    requires Increasing(xs) && forall y :: y in xs ==> x < y
    ensures Increasing([x] + xs)
  {
    forall i, j | 0 <= i < j < |xs| + 1 ensures ([x] + xs)[i] < ([x] + xs)[j] {
      assert xs[j - 1] in xs;
    }
  }

  lemma {:induction false} EntriesAre(lows: seq<real>, pl: seq<nat>, count: int, i: nat)
    requires i <= |pl| && count - 1 <= i && Priced(lows, pl) && Increasing(pl)
    ensures AreEntries(Entries(lows, pl, count, i), lows, pl, count, i)
    decreases |pl| - i
  {
    if i == |pl| {
    } else {
      EntriesAre(lows, pl, count, i + 1);
      PrependEntry(Entries(lows, pl, count, i + 1), lows, pl, count, i);
    }
  }

  lemma {:induction false} PrependEntry(rest: seq<nat>, lows: seq<real>, pl: seq<nat>, count: int, i: nat)
    requires i < |pl| && count - 1 <= i && Priced(lows, pl) && Increasing(pl)
    requires AreEntries(rest, lows, pl, count, i + 1)
    ensures AreEntries((if Descends(lows, pl, count, i) then [pl[i]] else []) + rest, lows, pl, count, i)
  {
    hide Descends;
    forall x | x in rest ensures pl[i] < x && x in pl[i..] {
      var k :| 0 <= k < |pl[i + 1..]| && pl[i + 1..][k] == x;
      assert pl[i..][k + 1] == x;
    }
    assert pl[i..][0] == pl[i];
    if Descends(lows, pl, count, i) {
      PrependIncreasing(pl[i], rest);
    } else {
      assert [] + rest == rest;
    }
  }

  lemma {:induction false} WatchOnIncreasing(low: seq<real>, pl: seq<nat>, count: int)
    requires Priced(low, pl) && Increasing(pl) && (forall i :: 0 <= i < |pl| ==> 1 <= pl[i])
    ensures Searchable(pl, count, 0)
    ensures Watch(low, pl, count, 0) ==
            if |pl| < count then [] else Entries(low, pl, count, if count <= 1 then 0 else count - 1)
  {
    if |pl| >= count && |pl| > 0 {
      SearchFromAllAfter(pl, count, 0, 0, 0);
    }
  }

  ghost predicate WatchExact(low: seq<real>, pl: seq<nat>, count: int)
    requires Priced(low, pl) && Searchable(pl, count, 0) && count >= 1
  {
    if |pl| < count then Watch(low, pl, count, 0) == []
    else AreEntries(Watch(low, pl, count, 0), low, pl, count, count - 1)
  }

  /** On the pivot lows of any run the search stays in range and returns, in order, exactly
      the lows whose last `count` pivot lows strictly descend. */
  lemma {:induction false} WatchOnRuns(high: seq<real>, low: seq<real>, count: int)
    requires |high| == |low| && count >= 1
    ensures var pl := Run(high, low).pl;
            && Priced(low, pl) && Searchable(pl, count, 0)
            && WatchExact(low, pl, count)
  {
    LowsAreIncreasing(high, low);
    WatchIsExact(low, Run(high, low).pl, count);
  }

  lemma {:induction false} WatchIsExact(low: seq<real>, pl: seq<nat>, count: int)
    requires count >= 1 && Increasing(pl)
    requires forall i :: 0 <= i < |pl| ==> 1 <= pl[i] && pl[i] < |low|
    ensures Priced(low, pl) && Searchable(pl, count, 0) && WatchExact(low, pl, count)
  {
    hide Entries, SearchFrom, Descends, AreEntries;
    WatchOnIncreasing(low, pl, count);
    if |pl| >= count {
      EntriesAre(low, pl, count, count - 1);
    }
  }
}
