/**
 * Submissions as batches of calls: each batch is a slice of the call list that is a single call or
 * keeps both limits, weighed by the wallet's own events. The chunker's ranges cut the list into the
 * fewest such batches.
 */
module Packing {
  import opened Base
  import opened Ledger
  import opened Planner
  import opened Wallet
  import opened GasChunks
  import opened Weights

  type Batch = seq<PlannedCall>

  function TotalWeight(w: seq<Event>, batch: Batch): nat {
    if batch == [] then 0
    else TotalWeight(w, batch[..|batch| - 1]) + Weight(w, batch[|batch| - 1].call)
  }

  /** One submission: a single call, or no more calls and no more weight than allowed. */
  predicate Within(w: seq<Event>, batch: Batch, maxCalls: int, maxGas: int) {
    |batch| == 1 || (0 < |batch| <= maxCalls && TotalWeight(w, batch) <= maxGas)
  }

  ghost predicate AllWithin(w: seq<Event>, batches: seq<Batch>, maxCalls: int, maxGas: int) {
    forall i :: 0 <= i < |batches| ==> Within(w, batches[i], maxCalls, maxGas)
  }

  /** The call list in submissions: consecutive slices, each within the limits. */
  ghost predicate SplitsInto(w: seq<Event>, planned: Batch, batches: seq<Batch>, maxCalls: int, maxGas: int) {
    Concat(batches) == planned && AllWithin(w, batches, maxCalls, maxGas)
  }

  /** No way of splitting the list takes fewer submissions. */
  ghost predicate Fewest(w: seq<Event>, planned: Batch, batches: seq<Batch>, maxCalls: int, maxGas: int) {
    forall other :: SplitsInto(w, planned, other, maxCalls, maxGas) ==> |batches| <= |other|
  }

  // ----- from ranges to batches -----

  function SlicesOf(planned: Batch, ranges: seq<Range>): (batches: seq<Batch>)
    requires forall k :: 0 <= k < |ranges| ==> ranges[k].start <= ranges[k].stop <= |planned|
    ensures |batches| == |ranges|
    ensures forall k :: 0 <= k < |ranges| ==> batches[k] == planned[ranges[k].start..ranges[k].stop]
  {
    if ranges == [] then []
    else
      var last := ranges[|ranges| - 1];
      SlicesOf(planned, ranges[..|ranges| - 1]) + [planned[last.start..last.stop]]
  }

  lemma {:induction false} CoversFront(ranges: seq<Range>, lo: nat, hi: nat)
    requires ranges != [] && GasChunks.Covers(ranges, lo, hi)
    ensures var last := ranges[|ranges| - 1];
      GasChunks.Covers(ranges[..|ranges| - 1], lo, last.start) && last.start < last.stop == hi
  {
    if |ranges| > 1 {
      CoversFront(ranges[1..], ranges[0].stop, hi);
      CoversBounds(ranges[1..], ranges[0].stop, hi);
      var front := ranges[..|ranges| - 1];
      assert front[0] == ranges[0] && front[1..] == ranges[1..][..|ranges| - 2];
      assert ranges[1..][|ranges| - 2] == ranges[|ranges| - 1];
    } else {
      assert ranges[1..] == [] && ranges[..0] == [];
    }
  }

  lemma {:induction false} SlicesJoin(planned: Batch, ranges: seq<Range>, hi: nat)
    requires GasChunks.Covers(ranges, 0, hi) && hi <= |planned|
    ensures forall k :: 0 <= k < |ranges| ==> ranges[k].start <= ranges[k].stop <= |planned|
    ensures Concat(SlicesOf(planned, ranges)) == planned[..hi]
    decreases |ranges|
  {
    CoversBounds(ranges, 0, hi);
    if ranges != [] {
      var last := ranges[|ranges| - 1];
      CoversFront(ranges, 0, hi);
      SlicesJoin(planned, ranges[..|ranges| - 1], last.start);
      ConcatAppend(SlicesOf(planned, ranges[..|ranges| - 1]), planned[last.start..last.stop]);
      assert planned[..last.start] + planned[last.start..last.stop] == planned[..hi];
    }
  }

  lemma {:induction false} GasIsWeight(w: seq<Event>, planned: Batch, lo: nat, hi: nat)
    requires lo <= hi <= |planned| && Weighed(w, planned)
    ensures GasOf(planned, lo, hi) == TotalWeight(w, planned[lo..hi])
    decreases hi - lo
  {
    if lo < hi {
      GasIsWeight(w, planned, lo, hi - 1);
      var batch := planned[lo..hi];
      assert batch[..|batch| - 1] == planned[lo..hi - 1] && batch[|batch| - 1] == planned[hi - 1];
    }
  }

  lemma FitsIsWithin(w: seq<Event>, planned: Batch, lo: nat, hi: nat, maxCalls: int, maxGas: int)
    requires lo < hi <= |planned| && Weighed(w, planned)
    ensures Fits(planned, lo, hi, maxCalls, maxGas) <==> Within(w, planned[lo..hi], maxCalls, maxGas)
  {
    GasIsWeight(w, planned, lo, hi);
  }

  lemma RangesSplit(w: seq<Event>, planned: Batch, ranges: seq<Range>, maxCalls: int, maxGas: int)
    requires Weighed(w, planned) && ValidSplit(planned, ranges, 0, |planned|, maxCalls, maxGas)
    ensures SplitsInto(w, planned, SlicesOf(planned, ranges), maxCalls, maxGas)
  {
    SlicesJoin(planned, ranges, |planned|);
    CoversBounds(ranges, 0, |planned|);
    assert planned[..|planned|] == planned;
    forall k | 0 <= k < |ranges| ensures Within(w, SlicesOf(planned, ranges)[k], maxCalls, maxGas) {
      FitsIsWithin(w, planned, ranges[k].start, ranges[k].stop, maxCalls, maxGas);
    }
  }

  // ----- from batches to ranges -----

  function RangesOf(batches: seq<Batch>): (ranges: seq<Range>)
    ensures |ranges| == |batches|
  {
    if batches == [] then []
    else RangesOf(batches[..|batches| - 1]) + [Range(|Concat(batches[..|batches| - 1])|, |Concat(batches)|)]
  }

  lemma {:induction false} BatchesAreRanges(
      w: seq<Event>, planned: Batch, batches: seq<Batch>, maxCalls: int, maxGas: int)
    requires Weighed(w, planned) && Concat(batches) <= planned && AllWithin(w, batches, maxCalls, maxGas)
    ensures ValidSplit(planned, RangesOf(batches), 0, |Concat(batches)|, maxCalls, maxGas)
  {
    if batches != [] {
      var front, last := batches[..|batches| - 1], batches[|batches| - 1];
      var mid, hi := |Concat(front)|, |Concat(batches)|;
      assert Concat(front) <= planned && planned[mid..hi] == last;
      BatchesAreRanges(w, planned, front, maxCalls, maxGas);
      assert Within(w, last, maxCalls, maxGas);
      FitsIsWithin(w, planned, mid, hi, maxCalls, maxGas);
      SplitAppend(planned, RangesOf(front), mid, hi, maxCalls, maxGas);
    }
  }

  /** Ranges that no valid split undercuts give batches that no way of splitting the list undercuts. */
  lemma RangesAreFewest(w: seq<Event>, planned: Batch, ranges: seq<Range>, maxCalls: int, maxGas: int)
    requires Weighed(w, planned) && ValidSplit(planned, ranges, 0, |planned|, maxCalls, maxGas)
    requires forall other :: ValidSplit(planned, other, 0, |planned|, maxCalls, maxGas) ==> |ranges| <= |other|
    ensures forall k :: 0 <= k < |ranges| ==> ranges[k].start <= ranges[k].stop <= |planned|
    ensures Fewest(w, planned, SlicesOf(planned, ranges), maxCalls, maxGas)
  {
    CoversBounds(ranges, 0, |planned|);
    forall other | SplitsInto(w, planned, other, maxCalls, maxGas) ensures |ranges| <= |other| {
      BatchesAreRanges(w, planned, other, maxCalls, maxGas);
      assert ValidSplit(planned, RangesOf(other), 0, |planned|, maxCalls, maxGas);
    }
  }
}
