/** Packing the call list into submissions under a call-count cap and a gas budget. */
module GasChunks {
  import opened Base
  import opened Planner

  /** Positions `start` up to, not including, `stop` of the call list. */
  datatype Range = Range(start: nat, stop: nat)

  function GasOf(planned: seq<PlannedCall>, lo: nat, hi: nat): nat
    requires lo <= hi <= |planned|
    decreases hi - lo
  {
    if lo == hi then 0 else GasOf(planned, lo, hi - 1) + planned[hi - 1].gas
  }

  /** A submission is within both limits, or is a single call. */
  predicate Fits(planned: seq<PlannedCall>, lo: nat, hi: nat, maxCalls: int, maxGas: int)
    requires lo <= hi <= |planned|
  {
    hi == lo + 1 || (hi - lo <= maxCalls && GasOf(planned, lo, hi) <= maxGas)
  }

  /** The ranges cover `lo` to `hi` in order, without gaps, and none is empty. */
  predicate Covers(ranges: seq<Range>, lo: nat, hi: nat) {
    if ranges == [] then lo == hi
    else ranges[0].start == lo && lo < ranges[0].stop <= hi && Covers(ranges[1..], ranges[0].stop, hi)
  }

  lemma {:induction false} CoversBounds(ranges: seq<Range>, lo: nat, hi: nat)
    requires Covers(ranges, lo, hi)
    ensures lo <= hi
    ensures forall k :: 0 <= k < |ranges| ==> lo <= ranges[k].start < ranges[k].stop <= hi
  {
    if ranges != [] {
      CoversBounds(ranges[1..], ranges[0].stop, hi);
      assert forall k :: 1 <= k < |ranges| ==> ranges[k] == ranges[1..][k - 1];
    }
  }

  /** A way to submit calls `lo` to `hi` of the list. */
  predicate ValidSplit(planned: seq<PlannedCall>, ranges: seq<Range>, lo: nat, hi: nat, maxCalls: int, maxGas: int) {
    && hi <= |planned|
    && Covers(ranges, lo, hi)
    && forall k :: 0 <= k < |ranges| ==>
         ranges[k].start <= ranges[k].stop <= hi
         && Fits(planned, ranges[k].start, ranges[k].stop, maxCalls, maxGas)
  }

  /** No range could take one more call. */
  predicate Greedy(planned: seq<PlannedCall>, ranges: seq<Range>, maxCalls: int, maxGas: int) {
    forall k :: 0 <= k < |ranges| && ranges[k].start <= ranges[k].stop < |planned| ==>
      !Fits(planned, ranges[k].start, ranges[k].stop + 1, maxCalls, maxGas)
  }

  lemma {:induction false} CoversAppend(ranges: seq<Range>, lo: nat, mid: nat, hi: nat)
    requires Covers(ranges, lo, mid) && mid < hi
    ensures Covers(ranges + [Range(mid, hi)], lo, hi)
  {
    if ranges != [] {
      CoversBounds(ranges, lo, mid);
      CoversAppend(ranges[1..], ranges[0].stop, mid, hi);
      assert (ranges + [Range(mid, hi)])[1..] == ranges[1..] + [Range(mid, hi)];
    }
  }

  lemma {:induction false} GasGrows(planned: seq<PlannedCall>, q: nat, p: nat, s: nat, e: nat)
    requires q <= p <= s <= e <= |planned|
    ensures GasOf(planned, p, s) <= GasOf(planned, q, e)
    decreases e - q
  {
    if s < e {
      GasGrows(planned, q, p, s, e - 1);
    } else if q < p && p < s {
      GasGrows(planned, q, p, s - 1, e - 1);
    }
  }

  /**
   * Greedy stays ahead: a greedy split that starts no earlier than another valid split of the
   * same tail has no more ranges.
   */
  lemma {:induction false} GreedyStaysAhead(
      planned: seq<PlannedCall>, greedy: seq<Range>, p: nat, other: seq<Range>, q: nat, maxCalls: int, maxGas: int)
    requires q <= p
    requires ValidSplit(planned, greedy, p, |planned|, maxCalls, maxGas)
    requires Greedy(planned, greedy, maxCalls, maxGas)
    requires ValidSplit(planned, other, q, |planned|, maxCalls, maxGas)
    ensures |greedy| <= |other|
    decreases |other|
  {
    CoversBounds(greedy, p, |planned|);
    CoversBounds(other, q, |planned|);
    if greedy != [] {
      var e, s := other[0].stop, greedy[0].stop;
      TailSplit(planned, other, q, maxCalls, maxGas);
      if e <= p {
        GreedyStaysAhead(planned, greedy, p, other[1..], e, maxCalls, maxGas);
      } else {
        if s < e {
          GasGrows(planned, q, p, s + 1, e);
          assert false;
        }
        TailSplit(planned, greedy, p, maxCalls, maxGas);
        TailGreedy(planned, greedy, maxCalls, maxGas);
        GreedyStaysAhead(planned, greedy[1..], s, other[1..], e, maxCalls, maxGas);
      }
    }
  }

  lemma TailSplit(planned: seq<PlannedCall>, ranges: seq<Range>, lo: nat, maxCalls: int, maxGas: int)
    requires ranges != [] && ValidSplit(planned, ranges, lo, |planned|, maxCalls, maxGas)
    ensures ValidSplit(planned, ranges[1..], ranges[0].stop, |planned|, maxCalls, maxGas)
  {
    assert forall k :: 0 <= k < |ranges[1..]| ==> ranges[1..][k] == ranges[k + 1];
  }

  lemma TailGreedy(planned: seq<PlannedCall>, ranges: seq<Range>, maxCalls: int, maxGas: int)
    requires ranges != [] && Greedy(planned, ranges, maxCalls, maxGas)
    ensures Greedy(planned, ranges[1..], maxCalls, maxGas)
  {
    assert forall k :: 0 <= k < |ranges[1..]| ==> ranges[1..][k] == ranges[k + 1];
  }

  /** The submissions one after the other. */
  function Submitted(planned: seq<PlannedCall>, ranges: seq<Range>): seq<PlannedCall>
    requires forall k :: 0 <= k < |ranges| ==> ranges[k].start <= ranges[k].stop <= |planned|
  {
    if ranges == [] then []
    else planned[ranges[0].start..ranges[0].stop] + Submitted(planned, ranges[1..])
  }

  /** Chunking keeps every call, in order. */
  lemma {:induction false} SubmittedIsAll(planned: seq<PlannedCall>, ranges: seq<Range>, lo: nat)
    requires Covers(ranges, lo, |planned|)
    ensures forall k :: 0 <= k < |ranges| ==> ranges[k].start <= ranges[k].stop <= |planned|
    ensures Submitted(planned, ranges) == planned[lo..]
  {
    CoversBounds(ranges, lo, |planned|);
    if ranges != [] {
      SubmittedIsAll(planned, ranges[1..], ranges[0].stop);
      assert planned[lo..] == planned[lo..ranges[0].stop] + planned[ranges[0].stop..];
    }
  }

  lemma SplitAppend(planned: seq<PlannedCall>, ranges: seq<Range>, mid: nat, hi: nat, maxCalls: int, maxGas: int)
    requires ValidSplit(planned, ranges, 0, mid, maxCalls, maxGas) && mid < hi <= |planned|
    requires Fits(planned, mid, hi, maxCalls, maxGas)
    ensures ValidSplit(planned, ranges + [Range(mid, hi)], 0, hi, maxCalls, maxGas)
  {
    CoversAppend(ranges, 0, mid, hi);
  }

  method ChunkByGas(planned: seq<PlannedCall>, maxCalls: int, maxGas: int) returns (ranges: seq<Range>)
    ensures ValidSplit(planned, ranges, 0, |planned|, Max(maxCalls, 1), maxGas)
    ensures forall other :: ValidSplit(planned, other, 0, |planned|, Max(maxCalls, 1), maxGas) ==>
      |ranges| <= |other|
  {
    var callCap := Max(maxCalls, 1);
    ranges := [];
    var start: nat := 0;
    var gas: nat := 0;
    for i := 0 to |planned|
      invariant start <= i && (start == i ==> i == 0)
      invariant gas == GasOf(planned, start, i)
      invariant start < i ==> Fits(planned, start, i, callCap, maxGas)
      invariant ValidSplit(planned, ranges, 0, start, callCap, maxGas)
      invariant Greedy(planned, ranges, callCap, maxGas)
    {
      var p := planned[i];
      var count := i - start;
      assert GasOf(planned, start, i + 1) == gas + p.gas;
      if count > 0 && (count >= callCap || gas + p.gas > maxGas) {
        assert !Fits(planned, start, i + 1, callCap, maxGas);
        SplitAppend(planned, ranges, start, i, callCap, maxGas);
        ranges := ranges + [Range(start, i)];
        start := i;
        gas := 0;
      }
      gas := gas + p.gas;
    }
    if start < |planned| {
      SplitAppend(planned, ranges, start, |planned|, callCap, maxGas);
      ranges := ranges + [Range(start, |planned|)];
    }
    forall other | ValidSplit(planned, other, 0, |planned|, callCap, maxGas) ensures |ranges| <= |other| {
      GreedyStaysAhead(planned, ranges, 0, other, 0, callCap, maxGas);
    }
  }
}
