/** addNewRangeForCalendar (chartmaster_helpers.go): merging a new range of candles into the
    ranges of the calendar. Times are integers; ZERO_TIME is the zero value of a time. */
module CalendarRanges {

  const ZERO_TIME := 0

  datatype TimeRange = TimeRange(s: int, e: int)

  predicate StrictlyInside(t: int, c: TimeRange) {
    c.s < t < c.e
  }

  predicate Engulfs(n: TimeRange, c: TimeRange) {
    n.s < c.s && n.s < c.e && n.e > c.s && n.e > c.e
  }

  /** What the loop has gathered: the range to save and the ranges kept. */
  datatype Gathered = Gathered(saveStart: int, saveEnd: int, kept: seq<TimeRange>)

  function Visit(g: Gathered, c: TimeRange, n: TimeRange): Gathered {
    var samePeriod, second := StrictlyInside(n.s, c), StrictlyInside(n.e, c);
    var both := samePeriod && second;
    Gathered(if both then ZERO_TIME else if samePeriod then c.s else g.saveStart,
             if both then ZERO_TIME else if second then c.e else g.saveEnd,
             if both || (!samePeriod && !second && !Engulfs(n, c)) then g.kept + [c] else g.kept)
  }

  function Gather(rs: seq<TimeRange>, n: TimeRange): Gathered {
    if |rs| == 0 then Gathered(n.s, n.e, [])
    else Visit(Gather(rs[..|rs| - 1], n), rs[|rs| - 1], n)
  }

  /** The ranges of the calendar after inserting n. */
  function Inserted(rs: seq<TimeRange>, n: TimeRange): seq<TimeRange> {
    var g := Gather(rs, n);
    if g.saveStart != ZERO_TIME && g.saveEnd != ZERO_TIME then g.kept + [TimeRange(g.saveStart, g.saveEnd)] else g.kept
  }

  method AddNewRange(dateRange: seq<TimeRange>, start: int, end: int) returns (ranges: seq<TimeRange>)
    ensures ranges == Inserted(dateRange, TimeRange(start, end))
  {
    ranges := [];
    var saveStartRange, saveEndRange := start, end;
    var k := 0;
    while k < |dateRange|
      invariant 0 <= k <= |dateRange|
      invariant Gathered(saveStartRange, saveEndRange, ranges) == Gather(dateRange[..k], TimeRange(start, end))
    {
      var c := dateRange[k];
      assert dateRange[..k + 1][..k] == dateRange[..k];
      var samePeriod, secondPeriodActivated := false, false;
      if start > c.s && start < c.e {
        saveStartRange := c.s;
        samePeriod := true;
      }
      if end > c.s && end < c.e {
        saveEndRange := c.e;
        secondPeriodActivated := true;
        if samePeriod {
          saveStartRange := ZERO_TIME;
          saveEndRange := ZERO_TIME;
          ranges := ranges + [c];
        }
      }
      if !samePeriod && !secondPeriodActivated && !(start < c.s && start < c.e && end > c.s && end > c.e) {
        ranges := ranges + [c];
      }
      k := k + 1;
    }
    assert dateRange[..k] == dateRange;
    if saveStartRange != ZERO_TIME && saveEndRange != ZERO_TIME {
      ranges := ranges + [TimeRange(saveStartRange, saveEndRange)];
    }
  }

  // ---------- coverage ----------

  predicate In(t: int, c: TimeRange) {
    c.s <= t <= c.e
  }

  predicate Covers(rs: seq<TimeRange>, t: int) {
    exists i :: 0 <= i < |rs| && In(t, rs[i])
  }

  /** No interior point in common. */
  predicate Apart(a: TimeRange, b: TimeRange) {
    a.e <= b.s || b.e <= a.s
  }

  ghost predicate Disjoint(rs: seq<TimeRange>) {
    forall i, j :: 0 <= i < j < |rs| ==> Apart(rs[i], rs[j])
  }

  /** Ranges run forward from real times. */
  ghost predicate Proper(rs: seq<TimeRange>) {
    forall i :: 0 <= i < |rs| ==> ZERO_TIME < rs[i].s < rs[i].e
  }

  /** A stored range inside the new one that shares an endpoint with it. */
  ghost predicate Clashes(rs: seq<TimeRange>, n: TimeRange) {
    exists i :: 0 <= i < |rs| && n.s <= rs[i].s && rs[i].e <= n.e && (rs[i].s == n.s || rs[i].e == n.e)
  }

  // ---------- what the loop gathers ----------

  /** The stored range that holds t strictly inside, if any. */
  ghost predicate HolderIs(rs: seq<TimeRange>, t: int, i: int) {
    if 0 <= i < |rs| then StrictlyInside(t, rs[i])
    else forall k :: 0 <= k < |rs| ==> !StrictlyInside(t, rs[k])
  }

  ghost predicate Keeps(c: TimeRange, n: TimeRange) {
    var a, b := StrictlyInside(n.s, c), StrictlyInside(n.e, c);
    (a && b) || (!a && !b && !Engulfs(n, c))
  }

  lemma {:induction false} KeptAre(rs: seq<TimeRange>, n: TimeRange)
    ensures forall c :: c in Gather(rs, n).kept <==> c in rs && Keeps(c, n)
  {
    if |rs| == 0 {
    } else {
      KeptAre(rs[..|rs| - 1], n);
      assert rs == rs[..|rs| - 1] + [rs[|rs| - 1]];
    }
  }

  /** The saved endpoints: those of the ranges that hold the new ones, and none when one range
      holds both. */
  lemma {:induction false} SavedAre(rs: seq<TimeRange>, n: TimeRange, a: int, b: int)
    requires Proper(rs) && Disjoint(rs) && n.s < n.e && HolderIs(rs, n.s, a) && HolderIs(rs, n.e, b)
    ensures var g := Gather(rs, n);
            if 0 <= a < |rs| && a == b then g.saveStart == ZERO_TIME && g.saveEnd == ZERO_TIME
            else g.saveStart == (if 0 <= a < |rs| then rs[a].s else n.s)
                 && g.saveEnd == (if 0 <= b < |rs| then rs[b].e else n.e)
  {
    hide Engulfs;
    if |rs| == 0 {
    } else {
      var m := |rs| - 1;
      HolderBefore(rs, n.s, a);
      HolderBefore(rs, n.e, b);
      SavedAre(rs[..m], n, if a == m then -1 else a, if b == m then -1 else b);
    }
  }

  /** The holder of t among all but the last range, and whether the last one holds t. */
  lemma {:induction false} HolderBefore(rs: seq<TimeRange>, t: int, a: int)
    requires |rs| > 0 && Proper(rs) && Disjoint(rs) && HolderIs(rs, t, a)
    ensures var m := |rs| - 1;
            && Proper(rs[..m]) && Disjoint(rs[..m])
            && HolderIs(rs[..m], t, if a == m then -1 else a)
            && (StrictlyInside(t, rs[m]) <==> a == m)
  {
    var m := |rs| - 1;
    assert a == m ==> forall k :: 0 <= k < m ==> Apart(rs[k], rs[m]);
    assert 0 <= a < m ==> Apart(rs[a], rs[m]);
  }

  lemma {:induction false} FindHolder(rs: seq<TimeRange>, t: int) returns (i: int)
    ensures HolderIs(rs, t, i) && -1 <= i < |rs|
  {
    if k :| 0 <= k < |rs| && StrictlyInside(t, rs[k]) {
      i := k;
    } else {
      i := -1;
    }
  }

  ghost predicate Insertable(rs: seq<TimeRange>, n: TimeRange) {
    Proper(rs) && Disjoint(rs) && ZERO_TIME < n.s < n.e
  }

  /** Distinct stored ranges lie apart, whichever comes first. */
  lemma {:induction false} StoredApart(rs: seq<TimeRange>, i: int, j: int)
    requires Disjoint(rs) && 0 <= i < |rs| && 0 <= j < |rs| && i != j
    ensures Apart(rs[i], rs[j])
  {
    if j < i {
      assert Apart(rs[j], rs[i]);
    }
  }

  /** Either one stored range holds the new one and nothing changes, or the hull of the new range
      and the holders of its endpoints is appended to the ranges kept. */
  lemma {:induction false} InsertedIs(rs: seq<TimeRange>, n: TimeRange) returns (a: int, b: int)
    requires Insertable(rs, n)
    ensures -1 <= a < |rs| && -1 <= b < |rs| && HolderIs(rs, n.s, a) && HolderIs(rs, n.e, b)
    ensures Inserted(rs, n) == Gather(rs, n).kept +
            if 0 <= a && a == b then []
            else [TimeRange(if 0 <= a then rs[a].s else n.s, if 0 <= b then rs[b].e else n.e)]
  {
    a := FindHolder(rs, n.s);
    b := FindHolder(rs, n.e);
    SavedAre(rs, n, a, b);
  }

  /** A stored range is kept unless it holds one endpoint only or lies within the new range. */
  lemma {:induction false} KeptOrMerged(rs: seq<TimeRange>, n: TimeRange, a: int, b: int, i: int)
    requires Insertable(rs, n) && 0 <= i < |rs|
    requires -1 <= a < |rs| && -1 <= b < |rs| && HolderIs(rs, n.s, a) && HolderIs(rs, n.e, b)
    ensures rs[i] in Gather(rs, n).kept <==> (a == b == i || (i != a && i != b && !Engulfs(n, rs[i])))
    ensures 0 <= a && a == b ==> rs[i] in Gather(rs, n).kept
  {
    KeptAre(rs, n);
    if 0 <= a && i != a { StoredApart(rs, i, a); }
    if 0 <= b && i != b { StoredApart(rs, i, b); }
  }

  /** Insertion covers exactly what was covered before and the new range. */
  lemma {:induction false} CoverageIsExact(rs: seq<TimeRange>, n: TimeRange, t: int)
    requires Insertable(rs, n)
    ensures Covers(Inserted(rs, n), t) <==> Covers(rs, t) || In(t, n)
  {
    var a, b := InsertedIs(rs, n);
    var kept, out := Gather(rs, n).kept, Inserted(rs, n);
    KeptAre(rs, n);
    if Covers(out, t) {
      var i :| 0 <= i < |out| && In(t, out[i]);
      if i < |kept| {
        assert kept[i] in rs;
      } else {
        assert In(t, n) || (0 <= a && In(t, rs[a])) || (0 <= b && In(t, rs[b]));
      }
    }
    if Covers(rs, t) {
      var i :| 0 <= i < |rs| && In(t, rs[i]);
      KeptOrMerged(rs, n, a, b, i);
      if rs[i] in kept {
        var k :| 0 <= k < |kept| && kept[k] == rs[i];
        assert out[k] == rs[i];
      } else {
        assert In(t, out[|kept|]);
      }
    }
    if In(t, n) {
      if 0 <= a && a == b {
        KeptOrMerged(rs, n, a, b, a);
        var k :| 0 <= k < |kept| && kept[k] == rs[a];
        assert out[k] == rs[a] && In(t, out[k]);
      } else {
        assert In(t, out[|kept|]);
      }
    }
  }

  // ---------- disjointness ----------

  lemma {:induction false} KeptStayDisjoint(rs: seq<TimeRange>, n: TimeRange)
    requires Disjoint(rs)
    ensures Disjoint(Gather(rs, n).kept)
  {
    if |rs| == 0 {
    } else {
      var m := |rs| - 1;
      KeptStayDisjoint(rs[..m], n);
      KeptAre(rs[..m], n);
      var before := Gather(rs[..m], n).kept;
      forall k | 0 <= k < |before| ensures Apart(before[k], rs[m]) {
        assert before[k] in rs[..m];
        var j :| 0 <= j < m && rs[j] == before[k];
        assert Apart(rs[j], rs[m]);
      }
    }
  }

  /** A kept range meets the merged one exactly when it clashes with the new one. */
  lemma {:induction false} MeetsIffClashes(rs: seq<TimeRange>, n: TimeRange, a: int, b: int, i: int)
    requires Insertable(rs, n) && 0 <= i < |rs| && !(0 <= a && a == b)
    requires -1 <= a < |rs| && -1 <= b < |rs| && HolderIs(rs, n.s, a) && HolderIs(rs, n.e, b)
    ensures var hull := TimeRange(if 0 <= a then rs[a].s else n.s, if 0 <= b then rs[b].e else n.e);
            var clash := n.s <= rs[i].s && rs[i].e <= n.e && (rs[i].s == n.s || rs[i].e == n.e);
            && (rs[i] in Gather(rs, n).kept ==> (Apart(rs[i], hull) <==> !clash))
            && (clash ==> rs[i] in Gather(rs, n).kept)
  {
    KeptOrMerged(rs, n, a, b, i);
    if 0 <= a && i != a { StoredApart(rs, i, a); }
    if 0 <= b && i != b { StoredApart(rs, i, b); }
  }

  /** The ranges stay pairwise disjoint exactly when no stored range inside the new one shares an
      endpoint with it. */
  lemma {:induction false} DisjointIffNoClash(rs: seq<TimeRange>, n: TimeRange)
    requires Insertable(rs, n)
    ensures Disjoint(Inserted(rs, n)) <==> !Clashes(rs, n)
  {
    var a, b := InsertedIs(rs, n);
    var kept, out := Gather(rs, n).kept, Inserted(rs, n);
    KeptAre(rs, n);
    KeptStayDisjoint(rs, n);
    if 0 <= a && a == b {
      forall i | 0 <= i < |rs| ensures !(n.s <= rs[i].s && rs[i].e <= n.e) {
        if i != a { StoredApart(rs, i, a); }
      }
      assert out == kept;
    } else {
      var hull := out[|kept|];
      if Clashes(rs, n) {
        var i :| 0 <= i < |rs| && n.s <= rs[i].s && rs[i].e <= n.e && (rs[i].s == n.s || rs[i].e == n.e);
        MeetsIffClashes(rs, n, a, b, i);
        var k :| 0 <= k < |kept| && kept[k] == rs[i];
        assert out[k] == rs[i] && !Apart(out[k], out[|kept|]);
      } else {
        forall k | 0 <= k < |kept| ensures Apart(kept[k], hull) {
          assert kept[k] in rs;
          var i :| 0 <= i < |rs| && rs[i] == kept[k];
          MeetsIffClashes(rs, n, a, b, i);
        }
        forall i, j | 0 <= i < j < |out| ensures Apart(out[i], out[j]) {
          if j < |kept| { assert Apart(kept[i], kept[j]); }
        }
      }
    }
  }

  /** A stored range that ends with the new one is kept inside it. */
  lemma {:induction false} SharedEndpointOverlaps()
    ensures var rs, n := [TimeRange(20, 30)], TimeRange(10, 30);
            Insertable(rs, n) && Inserted(rs, n) == [TimeRange(20, 30), TimeRange(10, 30)] && !Disjoint(Inserted(rs, n))
  {
    var rs, n := [TimeRange(20, 30)], TimeRange(10, 30);
    assert Gather(rs[..0], n) == Gathered(10, 30, []);
    assert Gather(rs, n) == Gathered(10, 30, [TimeRange(20, 30)]);
    var out := [TimeRange(20, 30), TimeRange(10, 30)];
    assert !Apart(out[0], out[1]);
  }

  lemma {:induction false} InsertedIsProper(rs: seq<TimeRange>, n: TimeRange)
    requires Insertable(rs, n)
    ensures Proper(Inserted(rs, n))
  {
    var a, b := InsertedIs(rs, n);
    KeptAre(rs, n);
    var out := Inserted(rs, n);
    forall i | 0 <= i < |out| ensures ZERO_TIME < out[i].s < out[i].e {
      if i < |Gather(rs, n).kept| {
        assert out[i] in rs;
      }
    }
  }

  // ---------- any sequence of inserts ----------

  function InsertedAll(rs: seq<TimeRange>, ns: seq<TimeRange>): seq<TimeRange> {
    if |ns| == 0 then rs else Inserted(InsertedAll(rs, ns[..|ns| - 1]), ns[|ns| - 1])
  }

  /** No insert of the sequence clashes with what is stored when its turn comes. */
  ghost predicate NeverClashes(rs: seq<TimeRange>, ns: seq<TimeRange>) {
    |ns| > 0 ==> && NeverClashes(rs, ns[..|ns| - 1])
                 && !Clashes(InsertedAll(rs, ns[..|ns| - 1]), ns[|ns| - 1])
  }

  /** Over any such sequence the ranges stay disjoint and cover exactly the union. */
  lemma {:induction false} InsertsKeepCalendar(rs: seq<TimeRange>, ns: seq<TimeRange>, t: int)
    requires Proper(rs) && Disjoint(rs) && Proper(ns) && NeverClashes(rs, ns)
    ensures Proper(InsertedAll(rs, ns)) && Disjoint(InsertedAll(rs, ns))
    ensures Covers(InsertedAll(rs, ns), t) <==> Covers(rs, t) || Covers(ns, t)
  {
    hide Inserted, Covers, Clashes, Disjoint;
    if |ns| == 0 {
      CoversNothing(t);
      assert ns == [];
    } else {
      var m := |ns| - 1;
      InsertsKeepCalendar(rs, ns[..m], t);
      var before := InsertedAll(rs, ns[..m]);
      CoverageIsExact(before, ns[m], t);
      DisjointIffNoClash(before, ns[m]);
      InsertedIsProper(before, ns[m]);
      CoversOneMore(ns, t);
    }
  }

  lemma {:induction false} CoversNothing(t: int)
    ensures !Covers([], t)
  {
  }

  lemma {:induction false} CoversOneMore(ns: seq<TimeRange>, t: int)
    requires |ns| > 0
    ensures Covers(ns, t) <==> Covers(ns[..|ns| - 1], t) || In(t, ns[|ns| - 1])
  {
    var m := |ns| - 1;
    if Covers(ns, t) {
      var i :| 0 <= i < |ns| && In(t, ns[i]);
      assert i < m ==> In(t, ns[..m][i]);
    }
    if Covers(ns[..m], t) {
      var i :| 0 <= i < m && In(t, ns[..m][i]);
      assert In(t, ns[i]);
    }
  }
}
