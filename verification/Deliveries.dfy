/** What the replay loops receive: a message and the candles that have arrived, one delivery for each pass; and
    what every interleaving of the fetch delivers. */
module Deliveries {
  import opened ChunkGaps
  import opened Replay
  import opened Pipeline

  /** What one receive from the channel finds: the minute reported and the candles that have arrived. */
  datatype Delivery = Delivery(message: int, arrived: seq<Bar>)

  function Messages(ds: seq<Delivery>): set<int> {
    set d | d in ds :: d.message
  }

  /** The cursor after one pass for each delivery. */
  function CursorAfter(startTime: int, endTime: int, ds: seq<Delivery>): Cursor {
    if |ds| == 0 then Cursor(startTime, [], false)
    else
      var n := |ds| - 1;
      Pass(CursorAfter(startTime, endTime, ds[..n]), ds[n].arrived, 0, Messages(ds), endTime)
  }

  /** After n passes the loop goes on: the cursor is not at the end time, nor walking for ever. */
  ghost predicate GoesOn(startTime: int, endTime: int, ds: seq<Delivery>, n: nat)
    requires n <= |ds|
  {
    var c := CursorAfter(startTime, endTime, ds[..n]);
    c.required != endTime && !c.stuck
  }

  /** No pass but the last ends the loop. */
  ghost predicate AllReceived(startTime: int, endTime: int, ds: seq<Delivery>) {
    forall n: nat :: 0 < n < |ds| ==> GoesOn(startTime, endTime, ds, n)
  }

  lemma {:induction false} MessagesNext(ds: seq<Delivery>, n: nat)
    requires n < |ds|
    ensures ds[..n + 1][..n] == ds[..n] && ds[..n + 1][n] == ds[n]
    ensures Messages(ds[..n + 1]) == Messages(ds[..n]) + {ds[n].message}
  {
    assert ds[..n + 1] == ds[..n] + [ds[n]];
  }

  // ---------- fed by the fetch ----------

  /** ds are what the loop has received in the first n steps: one delivery for each pass. */
  ghost predicate Delivers(chunks: seq<Chunk>, ss: seq<Sys>, steps: seq<Step>, n: nat, ds: seq<Delivery>)
    requires n <= |steps| < |ss| && forall i :: 0 <= i < |ss| ==> |ss[i].routines| == |chunks|
  {
    if n == 0 then ds == []
    else if !steps[n - 1].RunPass? then Delivers(chunks, ss, steps, n - 1, ds)
    else
      && |ds| > 0 && Delivers(chunks, ss, steps, n - 1, ds[..|ds| - 1])
      && ds[|ds| - 1].arrived == Arrived(chunks, ss[n - 1].routines)
      && Messages(ds) == ss[n - 1].empties
  }

  /** The system after the deliveries ds; message is the one pending, if any. */
  ghost predicate Delivered(startTime: int, endTime: int, s: Sys, ds: seq<Delivery>, message: int) {
    && s.cursor == CursorAfter(startTime, endTime, ds) && AllReceived(startTime, endTime, ds)
    && s.empties == Messages(ds) + (if s.pending then {message} else {})
    && (s.pending && |ds| > 0 ==> s.cursor.required != endTime && !s.cursor.stuck)
    && (s.done <==> |ds| > 0 && s.cursor.required == endTime && !s.cursor.stuck)
  }

  lemma {:induction false} AllReceivedNext(startTime: int, endTime: int, ds: seq<Delivery>, d: Delivery)
    requires AllReceived(startTime, endTime, ds)
    requires |ds| > 0 ==> var c := CursorAfter(startTime, endTime, ds); c.required != endTime && !c.stuck
    ensures AllReceived(startTime, endTime, ds + [d])
  {
    hide CursorAfter;
    var more := ds + [d];
    assert ds[..|ds|] == ds;
    forall n: nat | 0 < n < |more| ensures GoesOn(startTime, endTime, more, n) {
      assert more[..n] == ds[..n];
      assert n < |ds| ==> GoesOn(startTime, endTime, ds, n);
    }
  }

  lemma {:induction false} MessagesAdd(ds: seq<Delivery>, d: Delivery)
    ensures Messages(ds + [d]) == Messages(ds) + {d.message} && (ds + [d])[..|ds|] == ds
  {
  }

  lemma {:induction false} PassDelivers(chunks: seq<Chunk>, startTime: int, endTime: int, zeroTime: int, s: Sys,
                                        ds: seq<Delivery>, message: int)
    requires |s.routines| == |chunks| && Delivered(startTime, endTime, s, ds, message) && s.pending
    ensures var d := Delivery(message, Arrived(chunks, s.routines));
            && Delivered(startTime, endTime, Next(chunks, endTime, zeroTime, s, RunPass), ds + [d], message)
            && Messages(ds + [d]) == s.empties
  {
    hide Pass, AllReceived;
    var d := Delivery(message, Arrived(chunks, s.routines));
    MessagesAdd(ds, d);
    AllReceivedNext(startTime, endTime, ds, d);
  }

  /** Every interleaving of the fetch delivers something to the loop, and what the loop makes of it is the
      cursor of the interleaving: none of its passes but the last ends the loop. */
  lemma {:induction false} FetchDelivers(chunks: seq<Chunk>, startTime: int, endTime: int, zeroTime: int,
                                         ss: seq<Sys>, steps: seq<Step>, n: nat)
    returns (ds: seq<Delivery>, message: int)
    requires IsExecution(chunks, startTime, endTime, zeroTime, ss, steps) && n < |ss|
    ensures Delivers(chunks, ss, steps, n, ds) && Delivered(startTime, endTime, ss[n], ds, message)
    ensures forall d :: d in ds ==> FromChunks(d.arrived, chunks)
  {
    hide Pass, Arrived, FromChunks;
    if n == 0 {
      ds, message := [], 0;
    } else {
      var i := n - 1;
      var before;
      before, message := FetchDelivers(chunks, startTime, endTime, zeroTime, ss, steps, i);
      assert Taken(chunks, endTime, zeroTime, ss, steps, i);
      ds := before;
      match steps[i]
      case Send(k) => message := ReportsOf(chunks[k])[ss[i].routines[k].sent];
      case Write(k) =>
      case Close =>
      case ReceiveClosed => message := zeroTime;
      case RunPass =>
        PassDelivers(chunks, startTime, endTime, zeroTime, ss[i], before, message);
        ArrivedFromChunks(chunks, ss[i].routines);
        ds := before + [Delivery(message, Arrived(chunks, ss[i].routines))];
    }
  }
}
