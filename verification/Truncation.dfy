/**
 * Tiers wider than the leg cap: the truncated convert followed by its post-merges reaches the
 * ledger of one convert over every member, exactly when every truncated member can be merged.
 */
module Truncation {
  import opened Base
  import opened Ledger
  import opened Planner
  import opened PlanSteps
  import opened Resume

  function NetRow(r: Row): Row {
    if Mergeable(r) then Netted(r) else r
  }

  /** Every mergeable leg with its pairs merged away. */
  function NetRows(rows: seq<Row>): (out: seq<Row>)
    ensures |out| == |rows| && forall i :: 0 <= i < |rows| ==> out[i] == NetRow(rows[i])
  {
    if rows == [] then [] else [NetRow(rows[0])] + NetRows(rows[1..])
  }

  lemma NetRowsAfterMerge(rows: seq<Row>, i: nat)
    requires i < |rows| && Mergeable(rows[i])
    ensures NetRows(rows[i := Netted(rows[i])]) == NetRows(rows)
  {
    assert !Mergeable(Netted(rows[i]));
  }

  lemma {:induction false} NoMergesNetRows(rows: seq<Row>)
    requires Merges(rows) == []
    ensures NetRows(rows) == rows
  {
    if rows != [] {
      assert !Mergeable(rows[0]) && Merges(rows[1..]) == [];
      NoMergesNetRows(rows[1..]);
    }
  }

  /** Running all the merges of a ledger nets every mergeable leg. */
  lemma {:induction false} MergesNet(e: Event)
    requires WellFormed(e)
    ensures AllValid(e, MergeCalls(Merges(e.rows)))
    ensures ExecAll(e, MergeCalls(Merges(e.rows))).rows == NetRows(e.rows)
    ensures ExecAll(e, MergeCalls(Merges(e.rows))).market == e.market
    ensures WellFormed(ExecAll(e, MergeCalls(Merges(e.rows))))
    decreases |Merges(e.rows)|
  {
    var merges := Merges(e.rows);
    if merges == [] {
      NoMergesNetRows(e.rows);
    } else {
      var i := FirstMerge(e.rows);
      MergeExec(e, i);
      var call := MergeCall(merges[0].conditionId, merges[0].amount);
      var e' := Exec(e, call);
      MergesNet(e');
      NetRowsAfterMerge(e.rows, i);
      assert MergeCalls(merges)[0].call == call && MergeCalls(merges)[1..] == MergeCalls(Merges(e'.rows));
    }
  }

  ghost predicate AllMergeable(holdings: seq<NoHolding>) {
    forall j :: 0 <= j < |holdings| ==> holdings[j].conditionId.Some?
  }

  lemma AllMergeableConcat(s: seq<NoHolding>, t: seq<NoHolding>)
    ensures AllMergeable(s + t) <==> AllMergeable(s) && AllMergeable(t)
  {
    assert forall j :: 0 <= j < |s| ==> s[j] == (s + t)[j];
    assert forall j :: 0 <= j < |t| ==> t[j] == (s + t)[|s| + j];
  }

  lemma DroppedHead(rows: seq<Row>, cap: nat)
    requires rows != []
    ensures AllMergeable(Drop(Holdings(rows), cap)) <==>
      (rows[0].Leftover() > 0 && cap == 0 ==> rows[0].leg.conditionId.Some?)
      && AllMergeable(Drop(Holdings(rows[1..]), CapLeft(rows, cap)))
  {
    ChosenSplit(rows, cap);
    AllMergeableConcat(HoldingOf(rows[0]), Drop(Holdings(rows[1..]), CapLeft(rows, cap)));
    if rows[0].Leftover() > 0 {
      assert HoldingOf(rows[0])[0].conditionId == rows[0].leg.conditionId;
    }
  }

  lemma NetConvertRow(r: Row, cap: nat, full: nat, a: nat)
    requires !Mergeable(r) && a > 0 && (r.Leftover() > 0 ==> a <= r.Leftover() && full > 0)
    ensures r.Leftover() > 0 ==> a <= r.no
    ensures NetRow(ConvertRow(r, r.Leftover() > 0 && cap > 0, a)) == ConvertRow(r, r.Leftover() > 0 && full > 0, a)
      <==> (r.Leftover() > 0 && cap == 0 ==> r.leg.conditionId.Some?)
  {
  }

  lemma ConsEqual<T>(x: T, s: seq<T>, y: T, t: seq<T>)
    ensures [x] + s == [y] + t <==> x == y && s == t
  {
    if [x] + s == [y] + t {
      assert x == ([x] + s)[0] == ([y] + t)[0] == y;
      assert s == ([x] + s)[1..] == ([y] + t)[1..] == t;
    }
  }

  lemma {:induction false} TruncatedRows(rows: seq<Row>, cap: nat, full: nat, a: nat)
    requires Merges(rows) == [] && a > 0 && EachHolds(rows, a) && |Holdings(rows)| <= full
    ensures NetRows(ConvertFirstRows(rows, cap, a)) == ConvertFirstRows(rows, full, a)
      <==> AllMergeable(Drop(Holdings(rows), cap))
  {
    if rows != [] {
      var rest, fullRest := CapLeft(rows, cap), CapLeft(rows, full);
      MergedTail(rows, a);
      ConvertFirstRowsHead(rows, cap, a);
      ConvertFirstRowsHead(rows, full, a);
      TruncatedRows(rows[1..], rest, fullRest, a);
      DroppedHead(rows, cap);
      NetConvertRow(rows[0], cap, full, a);
      var head := ConvertRow(rows[0], TakesHead(rows, cap), a);
      var tail := ConvertFirstRows(rows[1..], rest, a);
      ConsEqual(NetRow(head), NetRows(tail),
                ConvertRow(rows[0], TakesHead(rows, full), a), ConvertFirstRows(rows[1..], fullRest, a));
    }
  }

  // ----- one tier -----

  /** Everything one tier does at a ledger whose pairs are merged and whose holdings all hold `a`. */
  ghost predicate TierReady(e: Event, a: nat) {
    && WellFormed(e) && Merges(e.rows) == []
    && a > 0 && EachHolds(e.rows, a) && |Holdings(e.rows)| > 0
  }

  function TierGroup(t: ConvertTier, nLegs: nat): seq<PlannedCall>
    requires t.questionIds != []
  {
    [TierConvert(t, nLegs)] + MergeCalls(t.postMerges)
  }

  /** A tier's convert, and what it leaves. */
  lemma TierConvertRuns(e: Event, cap: nat, a: nat) returns (e': Event)
    requires TierReady(e, a) && cap >= 1
    ensures var tier := TierOf(Holdings(e.rows), a, cap);
      && tier.questionIds != []
      && Valid(e, TierConvert(tier, |e.rows|).call) && e' == Exec(e, TierConvert(tier, |e.rows|).call)
      && Merges(e'.rows) == tier.postMerges
    ensures e'.rows == ConvertFirstRows(e.rows, cap, a) && e'.market == e.market && WellFormed(e')
  {
    var tier := TierOf(Holdings(e.rows), a, cap);
    TierDecodes(e, cap, a);
    ConvertExec(e, cap, a);
    FirstMaskCovers(e.rows, cap, a);
    e' := Exec(e, TierConvert(tier, |e.rows|).call);
  }

  lemma FirstThenCalls(e: Event, first: PlannedCall, rest: seq<PlannedCall>)
    requires Valid(e, first.call) && AllValid(Exec(e, first.call), rest)
    ensures AllValid(e, [first] + rest) && ExecAll(e, [first] + rest) == ExecAll(Exec(e, first.call), rest)
  {
    assert ([first] + rest)[1..] == rest;
  }

  lemma TierGroupRuns(e: Event, cap: nat, a: nat)
    requires TierReady(e, a) && cap >= 1
    ensures TierOf(Holdings(e.rows), a, cap).questionIds != []
    ensures var group := TierGroup(TierOf(Holdings(e.rows), a, cap), |e.rows|);
      && AllValid(e, group)
      && ExecAll(e, group).rows == NetRows(ConvertFirstRows(e.rows, cap, a))
      && ExecAll(e, group).market == e.market
      && WellFormed(ExecAll(e, group))
  {
    var e' := TierConvertRuns(e, cap, a);
    MergesNet(e');
    FirstThenCalls(e, TierConvert(TierOf(Holdings(e.rows), a, cap), |e.rows|), MergeCalls(Merges(e'.rows)));
  }

  /** Ledgers of equal worth and equal balances hold equal collateral. */
  lemma SameRowsSameLedger(e: Event, e1: Event, e2: Event)
    requires e.rows != [] && |e1.rows| == |e.rows|
    requires e1.market == e2.market && e1.rows == e2.rows
    requires Worth(e1, 0) == Worth(e, 0) && Worth(e2, 0) == Worth(e, 0)
    ensures e1 == e2
  {
  }

  lemma {:induction false} ExecKeepsLegs(e: Event, calls: seq<PlannedCall>)
    requires AllValid(e, calls)
    ensures |ExecAll(e, calls).rows| == |e.rows|
    decreases |calls|
  {
    if calls != [] {
      ExecKeepsLegs(Exec(e, calls[0].call), calls[1..]);
    }
  }

  /** One convert over every member, with nothing truncated. */
  lemma WholeTierRuns(e: Event, a: nat)
    requires TierReady(e, a)
    ensures var whole := TierOf(Holdings(e.rows), a, |Holdings(e.rows)|);
      && whole.questionIds == QuestionIds(Holdings(e.rows)) != [] && whole.postMerges == []
      && Valid(e, TierConvert(whole, |e.rows|).call)
      && var e' := Exec(e, TierConvert(whole, |e.rows|).call);
      && e'.rows == ConvertFirstRows(e.rows, |Holdings(e.rows)|, a)
      && e'.market == e.market
      && Worth(e', 0) == Worth(e, 0) && e.rows != []
  {
    var n := |Holdings(e.rows)|;
    var whole := TierOf(Holdings(e.rows), a, n);
    var k := HoldingsComeFromRows(e.rows, 0);
    assert Take(Holdings(e.rows), n) == Holdings(e.rows) && Drop(Holdings(e.rows), n) == [];
    TierDecodes(e, n, a);
    ConvertExec(e, n, a);
    FirstMaskCovers(e.rows, n, a);
    WorthConserved(e, StepOf(e.rows, TierConvert(whole, |e.rows|).call), 0);
  }

  /**
   * A truncated tier followed by its post-merges equals one convert over all its members, every
   * balance and the collateral, exactly when each truncated member has a condition id.
   */
  lemma TruncationRefines(e: Event, cap: nat, a: nat)
    requires TierReady(e, a) && cap >= 1
    ensures var hs, n := Holdings(e.rows), |e.rows|;
      var cut, whole := TierOf(hs, a, cap), TierOf(hs, a, |hs|);
      && cut.questionIds != [] && whole.questionIds == QuestionIds(hs) != [] && whole.postMerges == []
      && AllValid(e, TierGroup(cut, n)) && Valid(e, TierConvert(whole, n).call)
      && (ExecAll(e, TierGroup(cut, n)) == Exec(e, TierConvert(whole, n).call)
          <==> AllMergeable(Drop(hs, cap)))
  {
    var hs, n := Holdings(e.rows), |e.rows|;
    TierGroupRuns(e, cap, a);
    WholeTierRuns(e, a);
    TruncatedRows(e.rows, cap, |hs|, a);
    var group := TierGroup(TierOf(hs, a, cap), n);
    var e1, e2 := ExecAll(e, group), Exec(e, TierConvert(TierOf(hs, a, |hs|), n).call);
    CallsKeepWorth(e, group, 0);
    ExecKeepsLegs(e, group);
    if e1.rows == e2.rows {
      SameRowsSameLedger(e, e1, e2);
    }
  }

  lemma NotAllMergeable(holdings: seq<NoHolding>, cap: nat, j: nat)
    requires cap <= j < |holdings| && holdings[j].conditionId.None?
    ensures !AllMergeable(Drop(holdings, cap))
  {
    assert Drop(holdings, cap)[j - cap].conditionId.None?;
  }

  /** A truncated member without a condition id keeps the tier from reaching the untruncated ledger. */
  lemma UnmergeableTailDiffers(e: Event, cap: nat, a: nat, j: nat)
    requires TierReady(e, a) && 1 <= cap <= j < |Holdings(e.rows)| && Holdings(e.rows)[j].conditionId.None?
    ensures var hs, n := Holdings(e.rows), |e.rows|;
      var cut, whole := TierOf(hs, a, cap), TierOf(hs, a, |hs|);
      && cut.questionIds != [] && whole.questionIds != []
      && AllValid(e, TierGroup(cut, n)) && Valid(e, TierConvert(whole, n).call)
      && ExecAll(e, TierGroup(cut, n)) != Exec(e, TierConvert(whole, n).call)
  {
    NotAllMergeable(Holdings(e.rows), cap, j);
    TruncationRefines(e, cap, a);
  }

  // ----- the whole plan -----

  lemma {:induction false} ExecSplit(e: Event, first: seq<PlannedCall>, rest: seq<PlannedCall>)
    requires AllValid(e, first + rest)
    ensures AllValid(e, first) && AllValid(ExecAll(e, first), rest)
    ensures ExecAll(e, first + rest) == ExecAll(ExecAll(e, first), rest)
    decreases |first|
  {
    if first == [] {
      assert first + rest == rest;
    } else {
      assert (first + rest)[1..] == first[1..] + rest;
      ExecSplit(Exec(e, first[0].call), first[1..], rest);
    }
  }

  /** The plan as its first group of calls, and the plan of the ledger that group reaches. */
  lemma GroupThenPlan(e: Event, floor: int, cap: nat, group: seq<PlannedCall>)
    requires WellFormed(e) && cap >= 1
    requires |group| <= |Calls(e, floor, cap)| && group == Calls(e, floor, cap)[..|group|]
    ensures AllValid(e, group) && AllValid(e, Calls(e, floor, cap))
    ensures var e' := ExecAll(e, group);
      && WellFormed(e')
      && Calls(e', floor, cap) == Calls(e, floor, cap)[|group|..]
      && AllValid(e', Calls(e', floor, cap))
      && ExecAll(e, Calls(e, floor, cap)) == ExecAll(e', Calls(e', floor, cap))
  {
    var calls := Calls(e, floor, cap);
    PrefixThenReplan(e, floor, cap, |group|);
    PlanIsFixpoint(e, floor, cap);
    assert calls == group + calls[|group|..];
    ExecSplit(e, group, calls[|group|..]);
  }

  lemma {:induction false} NettingKeepsHoldings(rows: seq<Row>)
    ensures Merges(NetRows(rows)) == [] && Holdings(NetRows(rows)) == Holdings(rows)
  {
    if rows != [] {
      NettingKeepsHoldings(rows[1..]);
      assert NetRows(rows)[1..] == NetRows(rows[1..]);
    }
  }

  /** After the pre-merges no merge is planned, and the tiers are what they were. */
  lemma AfterPreMerges(e: Event, floor: int, cap: nat) returns (e': Event)
    requires WellFormed(e) && cap >= 1
    ensures WellFormed(e') && Merges(e'.rows) == [] && Holdings(e'.rows) == Holdings(e.rows)
    ensures AllValid(e, MergeCalls(Merges(e.rows))) && e' == ExecAll(e, MergeCalls(Merges(e.rows)))
    ensures AllValid(e, Calls(e, floor, cap)) && AllValid(e', Calls(e', floor, cap))
    ensures ExecAll(e, Calls(e, floor, cap)) == ExecAll(e', Calls(e', floor, cap))
  {
    var merges, tiers := Merges(e.rows), Tiers(Holdings(e.rows), floor, cap);
    CallsFrom(e, floor, cap, merges, tiers);
    var group := MergeCalls(merges);
    assert group == (group + TierCalls(tiers, |e.rows|))[..|group|];
    MergesNet(e);
    NettingKeepsHoldings(e.rows);
    GroupThenPlan(e, floor, cap, group);
    e' := ExecAll(e, group);
  }

  /** A pair-free ledger: the plan is its first tier's group, then the plan of what that leaves. */
  lemma FirstGroup(e: Event, floor: int, cap: nat) returns (a: nat, e': Event)
    requires WellFormed(e) && cap >= 1 && Merges(e.rows) == [] && Tiers(Holdings(e.rows), floor, cap) != []
    ensures a == TierLevel(Holdings(e.rows)) && TierReady(e, a)
    ensures TierOf(Holdings(e.rows), a, cap).questionIds != []
    ensures var group := TierGroup(TierOf(Holdings(e.rows), a, cap), |e.rows|);
      AllValid(e, group) && e' == ExecAll(e, group) && e'.rows == NetRows(ConvertFirstRows(e.rows, cap, a))
    ensures WellFormed(e') && Merges(e'.rows) == []
    ensures Holdings(e'.rows) == Lower(Holdings(e.rows), a)
    ensures AllValid(e, Calls(e, floor, cap)) && AllValid(e', Calls(e', floor, cap))
    ensures ExecAll(e, Calls(e, floor, cap)) == ExecAll(e', Calls(e', floor, cap))
  {
    var tiers := Tiers(Holdings(e.rows), floor, cap);
    a := FirstTier(e, floor, cap);
    FirstTierLevel(Holdings(e.rows), floor, cap, a);
    CallsFrom(e, floor, cap, [], tiers);
    TierCallsHead(tiers, |e.rows|);
    TierGroupRuns(e, cap, a);
    var group := TierGroup(TierOf(Holdings(e.rows), a, cap), |e.rows|);
    assert Calls(e, floor, cap) == group + TierCalls(tiers[1..], |e.rows|);
    GroupThenPlan(e, floor, cap, group);
    e' := ExecAll(e, group);
    ConvertFirst(e.rows, cap, a);
    NettingKeepsHoldings(ConvertFirstRows(e.rows, cap, a));
  }

  /** The smallest holding, which the first tier converts. */
  function TierLevel(holdings: seq<NoHolding>): nat {
    if SortedLevels(holdings) == [] then 0 else SortedLevels(holdings)[0]
  }

  lemma FirstTierLevel(holdings: seq<NoHolding>, floor: int, cap: nat, a: nat)
    requires Tiers(holdings, floor, cap) != [] && Tiers(holdings, floor, cap)[0] == TierOf(holdings, a, cap)
    ensures a == TierLevel(holdings)
  {
    var levels := SortedLevels(holdings);
    assert Tiers(holdings, floor, cap)[0].amount == Gap(0, levels[0]);
  }

  lemma {:induction false} LowerKeepsMergeable(holdings: seq<NoHolding>, a: nat)
    requires AllMergeable(holdings)
    ensures AllMergeable(Lower(holdings, a)) && |Lower(holdings, a)| <= |holdings|
    ensures Held(holdings, a) ==> |Lower(holdings, a)| < |holdings|
  {
    if holdings != [] {
      HeldSplit(holdings, a);
      assert forall j :: 0 <= j < |holdings[1..]| ==> holdings[1..][j] == holdings[j + 1];
      LowerKeepsMergeable(holdings[1..], a);
    }
  }

  lemma TiersIndependentOfCap(holdings: seq<NoHolding>, floor: int, cap1: nat, cap2: nat)
    ensures Tiers(holdings, floor, cap1) == [] <==> Tiers(holdings, floor, cap2) == []
  {
  }

  lemma MergeableDrop(holdings: seq<NoHolding>, cap: nat)
    requires AllMergeable(holdings)
    ensures AllMergeable(Drop(holdings, cap))
  {
  }

  lemma SameGroupOutcome(e: Event, a: nat, cap1: nat, cap2: nat)
    requires TierReady(e, a) && cap1 >= 1 && cap2 >= 1 && AllMergeable(Holdings(e.rows))
    ensures var t1, t2 := TierOf(Holdings(e.rows), a, cap1), TierOf(Holdings(e.rows), a, cap2);
      && t1.questionIds != [] && t2.questionIds != []
      && AllValid(e, TierGroup(t1, |e.rows|)) && AllValid(e, TierGroup(t2, |e.rows|))
      && ExecAll(e, TierGroup(t1, |e.rows|)) == ExecAll(e, TierGroup(t2, |e.rows|))
  {
    MergeableDrop(Holdings(e.rows), cap1);
    MergeableDrop(Holdings(e.rows), cap2);
    TruncationRefines(e, cap1, a);
    TruncationRefines(e, cap2, a);
  }

  lemma {:induction false} CapIsInvisibleAfterMerges(e: Event, floor: int, cap1: nat, cap2: nat)
    requires WellFormed(e) && cap1 >= 1 && cap2 >= 1
    requires Merges(e.rows) == [] && AllMergeable(Holdings(e.rows))
    ensures AllValid(e, Calls(e, floor, cap1)) && AllValid(e, Calls(e, floor, cap2))
    ensures ExecAll(e, Calls(e, floor, cap1)) == ExecAll(e, Calls(e, floor, cap2))
    decreases |Holdings(e.rows)|
  {
    var hs := Holdings(e.rows);
    TiersIndependentOfCap(hs, floor, cap1, cap2);
    if Tiers(hs, floor, cap1) == [] {
      CallsFrom(e, floor, cap1, [], []);
      CallsFrom(e, floor, cap2, [], []);
    } else {
      var a, e1 := FirstGroup(e, floor, cap1);
      var b, e2 := FirstGroup(e, floor, cap2);
      SameGroupOutcome(e, a, cap1, cap2);
      assert e1 == e2;
      LevelsAreSizes(hs, a);
      LowerKeepsMergeable(hs, a);
      CapIsInvisibleAfterMerges(e1, floor, cap1, cap2);
    }
  }

  /** With condition ids on every holding, the leg cap never shows in the ledger a plan reaches. */
  lemma CapIsInvisible(e: Event, floor: int, cap1: nat, cap2: nat)
    requires WellFormed(e) && cap1 >= 1 && cap2 >= 1 && AllMergeable(Holdings(e.rows))
    ensures AllValid(e, Calls(e, floor, cap1)) && AllValid(e, Calls(e, floor, cap2))
    ensures ExecAll(e, Calls(e, floor, cap1)) == ExecAll(e, Calls(e, floor, cap2))
  {
    var e1 := AfterPreMerges(e, floor, cap1);
    var e2 := AfterPreMerges(e, floor, cap2);
    CapIsInvisibleAfterMerges(e1, floor, cap1, cap2);
  }
}
