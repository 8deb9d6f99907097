/**
 * How good the plan is: no sequence of merges, splits and converts frees more than Freeable,
 * some sequence frees exactly that, and the plan is such a sequence exactly when no leg
 * without a condition id needs a merge.
 */
module Optimality {
  import opened Base
  import opened Ledger
  import opened Planner
  import opened PlanSteps
  import opened Resume

  /**
   * Walking the legs in order, a leg without a condition id must not hold both sides, and may
   * hold leftover NO only while fewer than `cap` holdings precede it.
   */
  predicate Recoverable(rows: seq<Row>, cap: nat) {
    rows == []
    || ((rows[0].leg.conditionId.Some? || (rows[0].Paired() == 0 && (rows[0].Leftover() > 0 ==> cap > 0)))
        && Recoverable(rows[1..], CapLeft(rows, cap)))
  }

  lemma {:induction false} AllConditionsRecoverable(rows: seq<Row>, cap: nat)
    requires forall i :: 0 <= i < |rows| ==> rows[i].leg.conditionId.Some?
    ensures Recoverable(rows, cap)
  {
    if rows != [] {
      assert forall i :: 0 <= i < |rows[1..]| ==> rows[1..][i] == rows[i + 1];
      AllConditionsRecoverable(rows[1..], CapLeft(rows, cap));
    }
  }

  lemma {:induction false} RecoverableAfterMerge(rows: seq<Row>, cap: nat, i: nat)
    requires i < |rows| && rows[i].leg.conditionId.Some?
    ensures Recoverable(rows[i := Netted(rows[i])], cap) <==> Recoverable(rows, cap)
  {
    var rows' := rows[i := Netted(rows[i])];
    if i == 0 {
      assert rows'[1..] == rows[1..];
    } else {
      assert rows'[1..] == rows[1..][i - 1 := Netted(rows[1..][i - 1])];
      RecoverableAfterMerge(rows[1..], CapLeft(rows, cap), i - 1);
    }
  }

  /** The legs freed from a tier only loosen the cap, so recoverability is kept both ways. */
  lemma {:induction false} RecoverableAfterConvert(rows: seq<Row>, cap: nat, a: nat, cap': nat)
    requires EachHolds(rows, a) && a > 0 && cap <= cap'
    ensures Recoverable(ConvertFirstRows(rows, cap, a), cap') <==> Recoverable(rows, cap)
  {
    if rows != [] {
      ConvertFirstRowsHead(rows, cap, a);
      var out := ConvertFirstRows(rows, cap, a);
      RecoverableAfterConvert(rows[1..], CapLeft(rows, cap), a, CapLeft(out, cap'));
    }
  }

  // ----- freed plus freeable is kept by the plan -----

  lemma {:induction false} HoldingBoundsTop(rows: seq<Row>, j: nat)
    requires j < |Holdings(rows)|
    ensures Holdings(rows)[j].remainingNo <= TopNet(rows)
  {
    var i := HoldingsComeFromRows(rows, j);
    TopNetBounds(rows);
    assert rows[i].Net() == rows[i].Leftover();
  }

  /** The head call is a merge on a leg with a condition id, or a convert no larger than the top net NO. */
  lemma HeadShape(e: Event, floor: int, cap: nat)
    requires WellFormed(e) && cap >= 1 && Calls(e, floor, cap) != []
    ensures Valid(e, Calls(e, floor, cap)[0].call)
    ensures Burn(StepOf(e.rows, Calls(e, floor, cap)[0].call)) <= TopNet(e.rows)
    ensures Recoverable(Exec(e, Calls(e, floor, cap)[0].call).rows, cap) <==> Recoverable(e.rows, cap)
  {
    var merges, tiers := Merges(e.rows), Tiers(Holdings(e.rows), floor, cap);
    CallsFrom(e, floor, cap, merges, tiers);
    if merges != [] {
      var i := FirstMerge(e.rows);
      MergeCallsHead(merges, TierCalls(tiers, |e.rows|));
      MergeExec(e, i);
      RecoverableAfterMerge(e.rows, cap, i);
    } else {
      var a := FirstTier(e, floor, cap);
      TierCallsHead(tiers, |e.rows|);
      ConvertShape(e, cap, a);
    }
  }

  lemma ConvertShape(e: Event, cap: nat, a: nat)
    requires WellFormed(e) && cap >= 1 && a > 0 && EachHolds(e.rows, a) && |Holdings(e.rows)| > 0
    requires Merges(e.rows) == []
    ensures TierOf(Holdings(e.rows), a, cap).questionIds != []
    ensures var call := TierConvert(TierOf(Holdings(e.rows), a, cap), |e.rows|).call;
      && Valid(e, call)
      && Burn(StepOf(e.rows, call)) <= TopNet(e.rows)
      && (Recoverable(Exec(e, call).rows, cap) <==> Recoverable(e.rows, cap))
  {
    ConvertExec(e, cap, a);
    TierDecodes(e, cap, a);
    TiersHeadBounds(e, a);
    RecoverableAfterConvert(e.rows, cap, a, cap);
    FirstMaskCovers(e.rows, cap, a);
  }

  lemma HeadKeeps(e: Event, floor: int, cap: nat)
    requires WellFormed(e) && cap >= 1 && Calls(e, floor, cap) != []
    ensures Valid(e, Calls(e, floor, cap)[0].call)
    ensures var e' := Exec(e, Calls(e, floor, cap)[0].call);
      e'.usdc + Freeable(e'.rows) == e.usdc + Freeable(e.rows)
  {
    HeadShape(e, floor, cap);
    var s := StepOf(e.rows, Calls(e, floor, cap)[0].call);
    StepKeeps(e, s);
  }

  lemma TiersHeadBounds(e: Event, a: nat)
    requires EachHolds(e.rows, a) && |Holdings(e.rows)| > 0
    ensures a <= TopNet(e.rows)
  {
    var k := HoldingsComeFromRows(e.rows, 0);
    HoldingBoundsTop(e.rows, 0);
  }

  // ----- what a finished ledger can still free -----

  function SumPaired(rows: seq<Row>): nat {
    if rows == [] then 0 else rows[0].Paired() + SumPaired(rows[1..])
  }

  function SumRemaining(holdings: seq<NoHolding>): nat {
    if holdings == [] then 0 else holdings[0].remainingNo + SumRemaining(holdings[1..])
  }

  function TopRemaining(holdings: seq<NoHolding>): nat {
    if holdings == [] then 0 else Max(holdings[0].remainingNo, TopRemaining(holdings[1..]))
  }

  lemma {:induction false} FreeableSplit(rows: seq<Row>)
    ensures SumNo(rows) == SumPaired(rows) + SumRemaining(Holdings(rows))
    ensures TopNet(rows) == TopRemaining(Holdings(rows))
  {
    if rows != [] {
      FreeableSplit(rows[1..]);
      if rows[0].Leftover() > 0 {
        assert Holdings(rows)[1..] == Holdings(rows[1..]);
      } else {
        assert Holdings(rows) == Holdings(rows[1..]);
      }
    }
  }

  lemma FreeableOfLoneHolding(rows: seq<Row>)
    requires |Holdings(rows)| <= 1
    ensures Freeable(rows) == SumPaired(rows)
  {
    FreeableSplit(rows);
    if |Holdings(rows)| == 1 {
      assert Holdings(rows)[1..] == [];
    }
  }

  lemma {:induction false} NothingPaired(rows: seq<Row>, cap: nat)
    requires Merges(rows) == [] && |Holdings(rows)| <= cap
    ensures Recoverable(rows, cap) <==> SumPaired(rows) == 0
  {
    if rows != [] {
      assert !Mergeable(rows[0]) && Merges(rows[1..]) == [];
      NothingPaired(rows[1..], CapLeft(rows, cap));
    }
  }

  /** The plan frees at most the bound, and all of it exactly when the event is recoverable. */
  lemma {:induction false} ProceedsMeetBound(e: Event, floor: int, cap: nat)
    requires WellFormed(e) && cap >= 1
    ensures Plan(e, floor, cap).proceeds <= Freeable(e.rows)
    ensures Plan(e, floor, cap).proceeds == Freeable(e.rows) <==> Recoverable(e.rows, cap)
    decreases |Calls(e, floor, cap)|
  {
    if Calls(e, floor, cap) == [] {
      NoCallsNoProceeds(e, floor, cap);
      NoTiersLoneHolding(Holdings(e.rows), floor, cap);
      FreeableOfLoneHolding(e.rows);
      NothingPaired(e.rows, cap);
    } else {
      HeadStep(e, floor, cap);
      HeadShape(e, floor, cap);
      HeadKeeps(e, floor, cap);
      ProceedsMeetBound(Exec(e, Calls(e, floor, cap)[0].call), floor, cap);
    }
  }

  // ----- the bound is attained -----

  lemma {:induction false} FindPaired(rows: seq<Row>) returns (i: nat)
    requires SumPaired(rows) > 0
    ensures i < |rows| && rows[i].Paired() > 0
  {
    if rows[0].Paired() > 0 {
      i := 0;
    } else {
      var k := FindPaired(rows[1..]);
      i := k + 1;
    }
  }

  lemma UsefulMerge(e: Event) returns (s: Step)
    requires SumPaired(e.rows) > 0
    ensures CanStep(e, s) && !s.Split? && SumNo(Apply(e, s).rows) < SumNo(e.rows) && Burn(s) <= TopNet(e.rows)
  {
    var i := FindPaired(e.rows);
    var a := e.rows[i].Paired();
    s := Merge(i, a);
    SumNoUpdate(e.rows, i, Row(e.rows[i].leg, e.rows[i].no - a, e.rows[i].yes - a));
  }

  lemma SmallestHolding(rows: seq<Row>) returns (a: nat)
    requires |Holdings(rows)| > 1
    ensures a > 0 && EachHolds(rows, a)
  {
    var hs := Holdings(rows);
    if Tiers(hs, 0, 1) == [] {
      NoTiersLoneHolding(hs, 0, 1);
      assert false;
    }
    a := TiersHead(hs, 0, 1);
    HoldingsEach(rows, a);
    var j :| 0 <= j < |hs| && hs[j].remainingNo == a;
    var k := HoldingsComeFromRows(rows, j);
  }

  lemma UsefulConvert(e: Event) returns (s: Step)
    requires |Holdings(e.rows)| > 1
    ensures CanStep(e, s) && !s.Split? && SumNo(Apply(e, s).rows) < SumNo(e.rows) && Burn(s) <= TopNet(e.rows)
  {
    var a := SmallestHolding(e.rows);
    var n := |Holdings(e.rows)|;
    var mask := FirstMask(e.rows, n);
    FirstMaskCount(e.rows, n);
    FirstMaskCovers(e.rows, n, a);
    TiersHeadBounds(e, a);
    SumNoConvert(e.rows, mask, a);
    assert n * a > 0;
    s := Convert(mask, a);
  }

  /** A step that frees collateral without losing any, while more than one holding or a pair is left. */
  lemma UsefulStep(e: Event) returns (s: Step)
    requires SumPaired(e.rows) > 0 || |Holdings(e.rows)| > 1
    ensures CanStep(e, s) && !s.Split? && SumNo(Apply(e, s).rows) < SumNo(e.rows)
    ensures Apply(e, s).usdc + Freeable(Apply(e, s).rows) == e.usdc + Freeable(e.rows)
  {
    if SumPaired(e.rows) > 0 {
      s := UsefulMerge(e);
    } else {
      s := UsefulConvert(e);
    }
    StepKeeps(e, s);
  }

  lemma HoldingsEach(rows: seq<Row>, a: nat)
    requires forall j :: 0 <= j < |Holdings(rows)| ==> a <= Holdings(rows)[j].remainingNo
    ensures EachHolds(rows, a)
  {
    forall i | 0 <= i < |rows| && rows[i].Leftover() > 0 ensures a <= rows[i].Leftover() {
      var n := RowIsHeld(rows, i);
    }
  }

  /** Some sequence of merges and converts frees everything the bound allows, condition ids or not. */
  lemma {:induction false} BoundIsAttained(e: Event) returns (steps: seq<Step>)
    ensures CanRun(e, steps) && forall k :: 0 <= k < |steps| ==> !steps[k].Split?
    ensures RunSteps(e, steps).usdc == e.usdc + Freeable(e.rows)
    decreases SumNo(e.rows)
  {
    if SumPaired(e.rows) > 0 || |Holdings(e.rows)| > 1 {
      var s := UsefulStep(e);
      var rest := BoundIsAttained(Apply(e, s));
      steps := [s] + rest;
      assert steps[1..] == rest;
    } else {
      steps := [];
      FreeableOfLoneHolding(e.rows);
    }
  }

  /** Whether no sequence of steps frees more than `freed`. */
  ghost predicate NothingBeats(e: Event, freed: int) {
    forall steps :: CanRun(e, steps) ==> RunSteps(e, steps).usdc - e.usdc <= freed
  }

  /** The plan is optimal among all sequences of steps exactly when the event is recoverable. */
  lemma PlanIsOptimalIff(e: Event, floor: int, cap: nat)
    requires WellFormed(e) && cap >= 1
    ensures NothingBeats(e, Plan(e, floor, cap).proceeds) <==> Recoverable(e.rows, cap)
  {
    ProceedsMeetBound(e, floor, cap);
    forall steps | CanRun(e, steps) ensures RunSteps(e, steps).usdc - e.usdc <= Freeable(e.rows) {
      NothingFreesMore(e, steps);
    }
    var best := BoundIsAttained(e);
    assert CanRun(e, best);
  }

  /** A pair on a leg without a condition id is lost: the plan frees nothing, a merge would free it. */
  lemma PairWithoutConditionIsLost(questionId: Bytes32, noToken: int, yesToken: int, amount: nat, floor: int)
    requires amount > 0
    ensures var leg := ConvertLeg(questionId, None, Some(yesToken), noToken);
      var e := Event(MarketId(questionId), [Row(leg, amount, amount)], 0);
      && WellFormed(e) && Plan(e, floor, MAX_LEGS_PER_CONVERT).proceeds == 0
      && !NothingBeats(e, Plan(e, floor, MAX_LEGS_PER_CONVERT).proceeds)
  {
    var leg := ConvertLeg(questionId, None, Some(yesToken), noToken);
    var row := Row(leg, amount, amount);
    var e := Event(MarketId(questionId), [row], 0);
    assert e.rows[0] == row && e.rows[1..] == [];
    assert Merges(e.rows) == MergeOf(row) + Merges([]) == [];
    assert Holdings(e.rows) == HoldingOf(row) + Holdings([]) == [];
    assert !Recoverable(e.rows, MAX_LEGS_PER_CONVERT);
    PlanIsOptimalIff(e, floor, MAX_LEGS_PER_CONVERT);
  }

  /** With every condition id known, the plan frees all NO held less the largest net position. */
  lemma PlanIsOptimal(e: Event, floor: int, cap: nat)
    requires WellFormed(e) && cap >= 1
    requires forall i :: 0 <= i < |e.rows| ==> e.rows[i].leg.conditionId.Some?
    ensures Plan(e, floor, cap).proceeds == SumNo(e.rows) - TopNet(e.rows)
    ensures NothingBeats(e, Plan(e, floor, cap).proceeds)
  {
    AllConditionsRecoverable(e.rows, cap);
    ProceedsMeetBound(e, floor, cap);
    PlanIsOptimalIff(e, floor, cap);
  }
}
