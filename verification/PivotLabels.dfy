/** The "H" labels: findPivots writes them at an offset of bars back, saveDisplayData turns the
    offset into an index of totalCandles (chartmaster_helpers.go). */
module PivotLabels {
  import opened PivotSpec
  import opened PivotRuns

  /** Label texts of totalCandles after one candle's labels were written. */
  function Apply(tops: seq<string>, labels: map<int, string>): seq<string> {
    seq(|tops|, k requires 0 <= k < |tops| => Relabel(tops, labels, k))
  }

  function Relabel(tops: seq<string>, labels: map<int, string>, k: nat): string
    requires k < |tops|
  {
    var bb := |tops| - k - 1;
    if bb !in labels then tops[k]
    else if tops[k] != "" then tops[k] + "-" + labels[bb]
    else labels[bb]
  }

  /** Every label but those of rest is written. */
  ghost predicate Done(before: seq<string>, labels: map<int, string>, rest: set<int>, tops: seq<string>) {
    && |tops| == |before|
    && forall k :: 0 <= k < |tops| ==>
         tops[k] == if |tops| - k - 1 in rest then before[k] else Relabel(before, labels, k)
  }

  /** The LabelTop fields of the global totalCandles. */
  class Display {
    var tops: seq<string>

    constructor ()
      ensures tops == []
    {
      tops := [];
    }

    /** The candle is appended unlabelled; then each label goes to its own candle. The loop
        takes the labels in any order, as Go ranges over a map. */
    method SaveTopLabels(labels: map<int, string>)
      requires BarsBack(labels)
      modifies this
      ensures tops == Apply(old(tops) + [""], labels)
    {
      tops := tops + [""];
      ghost var before := tops;
      var rest := labels.Keys;
      while exists bb :: bb in rest
        invariant rest <= labels.Keys
        invariant Done(before, labels, rest, tops)
        decreases rest
      {
        var labelBB :| labelBB in rest;
        var index := |tops| - labelBB - 1;
        if index >= 0 {
          if tops[index] != "" {
            tops := tops[index := tops[index] + "-" + labels[labelBB]];
          } else {
            tops := tops[index := labels[labelBB]];
          }
        }
        rest := rest - {labelBB};
      }
      assert tops == Apply(before, labels);
    }
  }

  /** The top labels one call of findPivots writes into a fresh map. */
  function NewTop(high: seq<real>, low: seq<real>, rel: nat, p: Pivots): map<int, string>
    requires IndexSafe(p) && |high| == |low|
  {
    var f := Found(high, low, rel, p);
    if f.Some? && LookForHigh(p) then map[rel - f.value := "H"] else map[]
  }

  /** The texts after a whole run that starts with no candles. */
  function RunTops(high: seq<real>, low: seq<real>): seq<string>
    requires |high| == |low|
  {
    if |high| == 0 then []
    else Apply(RunTops(Front(high), Front(low)) + [""],
               NewTop(high, low, |high| - 1, Run(Front(high), Front(low))))
  }

  lemma {:induction false} RunTopsUnfolds(high: seq<real>, low: seq<real>)
    requires |high| == |low| > 0
    ensures RunTops(high, low)
         == Apply(RunTops(Front(high), Front(low)) + [""], NewTop(high, low, |high| - 1, Run(Front(high), Front(low))))
  {
  }

  ghost predicate BarsBack(labels: map<int, string>) {
    forall bb :: bb in labels ==> 0 <= bb
  }

  /** Every offset is counted backwards from the current candle. */
  lemma {:induction false} NewTopIsBarsBack(high: seq<real>, low: seq<real>, p: Pivots)
    requires |high| == |low| > 0 && IndexSafe(p) && Inv(Front(high), Front(low), p)
    ensures BarsBack(NewTop(high, low, |high| - 1, p))
  {
    NewHigh(high, low, p);
  }

  /** A text at k bars back of n candles lands on candle n - 1 - k and nowhere else. */
  lemma {:induction false} ApplyOne(tops: seq<string>, p: nat)
    requires p < |tops| && tops[p] == ""
    ensures Apply(tops, map[|tops| - 1 - p := "H"]) == tops[p := "H"]
  {
  }

  lemma {:induction false} ApplyNone(tops: seq<string>)
    ensures Apply(tops, map[]) == tops
  {
  }

  /** Which high one call adds, and that it is a new one. */
  lemma {:induction false} NewHigh(high: seq<real>, low: seq<real>, p: Pivots)
    requires |high| == |low| > 0 && IndexSafe(p) && Inv(Front(high), Front(low), p)
    ensures var f := Found(high, low, |high| - 1, p);
            var p' := Step(high, low, |high| - 1, p);
            if f.Some? && LookForHigh(p)
            then f.value !in p.ph && f.value < |high| && p'.ph == p.ph + [f.value]
            else p'.ph == p.ph
  {
    FoundIsNext(high, low, p);
    ShapeOrder(p);
  }

  ghost predicate Marks(tops: seq<string>, ph: seq<nat>) {
    forall k :: 0 <= k < |tops| ==> tops[k] == if k in ph then "H" else ""
  }

  lemma {:induction false} NextMarks(high: seq<real>, low: seq<real>, p: Pivots, tops: seq<string>)
    requires |high| == |low| > 0 && IndexSafe(p) && Inv(Front(high), Front(low), p)
    requires |tops| == |high| - 1 && Marks(tops, p.ph)
    ensures var tops' := Apply(tops + [""], NewTop(high, low, |high| - 1, p));
            |tops'| == |high| && Marks(tops', Step(high, low, |high| - 1, p).ph)
  {
    NewHigh(high, low, p);
    assert |high| - 1 !in p.ph;
    var f := Found(high, low, |high| - 1, p);
    if f.Some? && LookForHigh(p) {
      ApplyOne(tops + [""], f.value);
    } else {
      ApplyNone(tops + [""]);
    }
  }

  /** The bars-back offset always lands on the pivot's own candle, once. */
  lemma {:induction false} LabelsMarkThePivotHighs(high: seq<real>, low: seq<real>)
    requires |high| == |low|
    ensures |RunTops(high, low)| == |high|
    ensures Marks(RunTops(high, low), Run(high, low).ph)
  {
    if |high| == 0 {
    } else {
      hide Marks, Apply, Step, Inv;
      var h, l := Front(high), Front(low);
      LabelsMarkThePivotHighs(h, l);
      NextMarks(high, low, Run(h, l), RunTops(h, l));
    }
  }
}
