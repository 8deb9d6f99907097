/**
 * Concrete events at which a promise fails: legs with one NO each and no YES, where the last leg may
 * lack its condition id or its YES token id.
 */
module Counterexamples {
  import opened Base
  import opened Ledger
  import opened Planner
  import opened PlanSteps
  import opened Resume
  import opened Optimality
  import opened Truncation
  import opened Snapshot
  import opened HiddenYes

  function Zeros(): (z: seq<byte>)
    ensures |z| == 31
  {
    seq(31, i => 0)
  }

  function Id(n: byte): Bytes32 {
    Zeros() + [n]
  }

  lemma IdFacts(n: byte)
    ensures Id(n)[31] == n && MarketId(Id(n)) == Id(0)
  {
    assert Id(n)[..31] == Zeros();
  }

  /** Leg `n`: one NO, no YES; leg 0 has the ids it is given. */
  function UniformRow(n: byte, cid: bool, yesId: bool): Row {
    Row(ConvertLeg(Id(n), if cid || n > 0 then Some(Id(n)) else None,
                   if yesId || n > 0 then Some(2 * n) else None, 2 * n + 1), 1, 0)
  }

  /** Legs `n - 1` down to 0. */
  function UniformRows(n: nat, cid: bool, yesId: bool): (rows: seq<Row>)
    requires n <= 256
    ensures |rows| == n && forall i :: 0 <= i < n ==> rows[i] == UniformRow(n - 1 - i, cid, yesId)
  {
    if n == 0 then [] else [UniformRow(n - 1, cid, yesId)] + UniformRows(n - 1, cid, yesId)
  }

  function UniformEvent(n: nat, cid: bool, yesId: bool): Event
    requires n <= 256
  {
    Event(Id(0), UniformRows(n, cid, yesId), 0)
  }

  lemma {:induction false} UniformHoldings(n: nat, cid: bool, yesId: bool)
    requires n <= 256
    ensures Merges(UniformRows(n, cid, yesId)) == [] && |Holdings(UniformRows(n, cid, yesId))| == n
    ensures forall j :: 0 <= j < n ==>
      Holdings(UniformRows(n, cid, yesId))[j].conditionId == UniformRow(n - 1 - j, cid, yesId).leg.conditionId
  {
    if n > 0 {
      UniformHoldings(n - 1, cid, yesId);
      var rows, rest := UniformRows(n, cid, yesId), Holdings(UniformRows(n - 1, cid, yesId));
      var row := UniformRow(n - 1, cid, yesId);
      assert rows[0] == row && rows[1..] == UniformRows(n - 1, cid, yesId);
      assert row.Leftover() == 1;
      assert Holdings(rows) == [NoHolding(Id(n - 1), row.leg.conditionId, 1)] + rest;
    }
  }

  lemma UniformFacts(n: nat, cid: bool, yesId: bool)
    requires n <= 256
    ensures WellFormed(UniformEvent(n, cid, yesId))
    ensures EachHolds(UniformRows(n, cid, yesId), 1)
  {
    var rows := UniformRows(n, cid, yesId);
    forall i | 0 <= i < n ensures Position(rows[i]) == n - 1 - i && MarketId(rows[i].leg.questionId) == Id(0) {
      IdFacts(n - 1 - i);
    }
    forall i, j | 0 <= i < j < n && rows[i].leg.conditionId.Some?
      ensures rows[i].leg.conditionId != rows[j].leg.conditionId
    {
      assert Position(rows[i]) != Position(rows[j]);
    }
  }

  // ----- calls against the snapshot -----

  /** Twenty-one legs or more with one NO each: under the planner's own cap, some call is not valid alone. */
  lemma SnapshotClaimFails(n: nat, floor: int)
    requires MAX_LEGS_PER_CONVERT < n <= 256
    ensures WellFormed(UniformEvent(n, true, true))
    ensures !EachValid(UniformEvent(n, true, true), Calls(UniformEvent(n, true, true), floor, MAX_LEGS_PER_CONVERT))
  {
    var e := UniformEvent(n, true, true);
    UniformFacts(n, true, true);
    UniformHoldings(n, true, true);
    assert Holdings(e.rows)[MAX_LEGS_PER_CONVERT].conditionId.Some?;
    NoYesValidIff(e, floor, MAX_LEGS_PER_CONVERT);
  }

  // ----- truncation -----

  /** Twenty-one legs or more, the last without a condition id: truncating it misses the untruncated ledger. */
  lemma TruncationLosesLeg(n: nat)
    requires MAX_LEGS_PER_CONVERT < n <= 256
    ensures var e := UniformEvent(n, false, true);
      var hs := Holdings(e.rows);
      var cut, whole := TierOf(hs, 1, MAX_LEGS_PER_CONVERT), TierOf(hs, 1, |hs|);
      && TierReady(e, 1) && cut.questionIds != [] && whole.questionIds != []
      && AllValid(e, TierGroup(cut, n)) && Valid(e, TierConvert(whole, n).call)
      && ExecAll(e, TierGroup(cut, n)) != Exec(e, TierConvert(whole, n).call)
  {
    var e := UniformEvent(n, false, true);
    UniformFacts(n, false, true);
    UniformHoldings(n, false, true);
    UnmergeableTailDiffers(e, MAX_LEGS_PER_CONVERT, 1, n - 1);
  }

  // ----- planning again with YES hidden -----

  lemma {:induction false} FirstLegsTaken(rows: seq<Row>, cap: nat, i: nat)
    requires i < |rows| && forall k :: 0 <= k < |rows| ==> rows[k].Leftover() > 0
    ensures FirstMask(rows, cap)[i] <==> i < cap
  {
    if i > 0 {
      assert forall k :: 0 <= k < |rows[1..]| ==> rows[1..][k] == rows[k + 1];
      FirstLegsTaken(rows[1..], if cap > 0 then cap - 1 else 0, i - 1);
    }
  }

  /** Where the smallest holding is one NO, the first planned call converts it on the first legs. */
  lemma FirstCallConverts(e: Event, floor: int, cap: nat) returns (first: PlannedCall)
    requires WellFormed(e) && cap >= 1 && Merges(e.rows) == [] && |Holdings(e.rows)| > 1
    requires e.rows != [] && e.rows[0].Leftover() == 1
    ensures Calls(e, floor, cap) != [] && first == Calls(e, floor, cap)[0]
    ensures Valid(e, first.call) && StepOf(e.rows, first.call) == Convert(FirstMask(e.rows, cap), 1)
  {
    var hs := Holdings(e.rows);
    var tiers := Tiers(hs, floor, cap);
    if tiers == [] {
      NoTiersLoneHolding(hs, floor, cap);
    }
    var a := FirstTier(e, floor, cap);
    CallsFrom(e, floor, cap, [], tiers);
    TierCallsHead(tiers, |e.rows|);
    TierDecodes(e, cap, a);
    ConvertExec(e, cap, a);
    first := TierConvert(tiers[0], |e.rows|);
  }

  /** What shows of an event whose last leg's YES token id is unknown, after one convert past it. */
  lemma HiddenTopStays(e: Event, e': Event, cap: nat)
    requires e.rows != [] && cap < |e.rows| && forall k :: 0 <= k < |e.rows| ==> e.rows[k].no == 1 && e.rows[k].yes == 0
    requires e.rows[|e.rows| - 1].leg.yesTokenId.None?
    requires EachHolds(e.rows, 1) && e'.rows == ConvertFirstRows(e.rows, cap, 1)
    ensures TopNet(ShownRows(e'.rows)) >= 1
  {
    var last := |e.rows| - 1;
    FirstLegsTaken(e.rows, cap, last);
    FirstMaskCovers(e.rows, cap, 1);
    assert e'.rows[last] == ConvertRow(e.rows[last], false, 1);
    assert ShownRows(e'.rows)[last].Net() == 1;
    TopNetBounds(ShownRows(e'.rows));
  }

  lemma UniformShown(n: nat)
    requires n <= 256
    ensures ShownEvent(UniformEvent(n, true, false)) == UniformEvent(n, true, false)
  {
    var rows := UniformRows(n, true, false);
    assert ShownRows(rows) == rows;
  }

  /** What has been freed and what a new plan, made from a read, still promises. */
  function ResumedProceeds(e: Event, floor: int): int {
    e.usdc + Plan(ShownEvent(e), floor, MAX_LEGS_PER_CONVERT).proceeds
  }

  ghost predicate AllConditions(e: Event) {
    forall k :: 0 <= k < |e.rows| ==> e.rows[k].leg.conditionId.Some?
  }

  lemma OneCallResumes(e: Event, floor: int, first: PlannedCall)
    requires WellFormed(e) && AllConditions(e) && Valid(e, first.call)
    ensures ResumedProceeds(Exec(e, first.call), floor) == ResumedProceeds(e, floor) <==>
      TopNet(ShownRows(Exec(e, first.call).rows)) == TopNet(ShownRows(e.rows)) - Burn(StepOf(e.rows, first.call))
  {
    var e' := Exec(e, first.call);
    StepKeepsWellFormed(e, StepOf(e.rows, first.call));
    AllConditionsRecoverable(ShownRows(e.rows), MAX_LEGS_PER_CONVERT);
    AllConditionsRecoverable(ShownRows(e'.rows), MAX_LEGS_PER_CONVERT);
    OneCall(e, first);
    HiddenResumeIff(e, floor, MAX_LEGS_PER_CONVERT, [first]);
  }

  lemma FirstConvertApplies(e: Event, first: PlannedCall, cap: nat)
    requires EachHolds(e.rows, 1) && Valid(e, first.call)
    requires StepOf(e.rows, first.call) == Convert(FirstMask(e.rows, cap), 1)
    ensures Exec(e, first.call).rows == ConvertFirstRows(e.rows, cap, 1)
  {
    FirstMaskCovers(e.rows, cap, 1);
  }

  /** More legs than the cap, one NO each, all mergeable, the YES token id of the last unknown. */
  ghost predicate HiddenTail(e: Event) {
    && WellFormed(e) && AllConditions(e) && ShownEvent(e) == e
    && |e.rows| > MAX_LEGS_PER_CONVERT && e.rows[|e.rows| - 1].leg.yesTokenId.None?
    && (forall k :: 0 <= k < |e.rows| ==> e.rows[k].no == 1 && e.rows[k].yes == 0)
    && Merges(e.rows) == [] && |Holdings(e.rows)| == |e.rows|
  }

  lemma HiddenTailHolds(e: Event)
    requires HiddenTail(e)
    ensures EachHolds(e.rows, 1) && e.rows != [] && e.rows[0].Leftover() == 1 && TopNet(e.rows) == 1
    ensures TopNet(ShownRows(e.rows)) == 1
  {
    UniformTop(e.rows);
    assert ShownEvent(e).rows == ShownRows(e.rows);
  }

  lemma LastLegLoses(e: Event, floor: int, first: PlannedCall)
    requires HiddenTail(e) && Valid(e, first.call)
    requires StepOf(e.rows, first.call) == Convert(FirstMask(e.rows, MAX_LEGS_PER_CONVERT), 1)
    ensures ResumedProceeds(Exec(e, first.call), floor) != ResumedProceeds(e, floor)
  {
    HiddenTailHolds(e);
    FirstConvertApplies(e, first, MAX_LEGS_PER_CONVERT);
    HiddenTopStays(e, Exec(e, first.call), MAX_LEGS_PER_CONVERT);
    OneCallResumes(e, floor, first);
  }

  /** Any event with a hidden tail: after its first call, planning again falls short. */
  lemma ReplanLoses(e: Event, floor: int) returns (first: PlannedCall)
    requires HiddenTail(e)
    ensures Calls(e, floor, MAX_LEGS_PER_CONVERT) != [] && first == Calls(e, floor, MAX_LEGS_PER_CONVERT)[0]
    ensures Valid(e, first.call) && ResumedProceeds(Exec(e, first.call), floor) != ResumedProceeds(e, floor)
  {
    HiddenTailHolds(e);
    first := FirstCallConverts(e, floor, MAX_LEGS_PER_CONVERT);
    LastLegLoses(e, floor, first);
  }

  lemma UniformHiddenTail(n: nat)
    requires MAX_LEGS_PER_CONVERT < n <= 256
    ensures HiddenTail(UniformEvent(n, true, false))
  {
    UniformFacts(n, true, false);
    UniformHoldings(n, true, false);
    UniformShown(n);
  }

  /**
   * Twenty-one legs or more, the YES token id of the last unknown. When the first call lands and the
   * rest does not, planning again from a balance read no longer frees what the first plan promised.
   */
  lemma ReplanLosesHiddenYes(n: nat, floor: int) returns (first: PlannedCall)
    requires MAX_LEGS_PER_CONVERT < n <= 256
    ensures var e := UniformEvent(n, true, false);
      && HiddenTail(e)
      && Calls(e, floor, MAX_LEGS_PER_CONVERT) != [] && first == Calls(e, floor, MAX_LEGS_PER_CONVERT)[0]
      && Valid(e, first.call)
      && ResumedProceeds(Exec(e, first.call), floor) != ResumedProceeds(e, floor)
  {
    UniformHiddenTail(n);
    first := ReplanLoses(UniformEvent(n, true, false), floor);
  }

  lemma UniformTop(rows: seq<Row>)
    requires rows != [] && forall i :: 0 <= i < |rows| ==> rows[i].Net() == 1
    ensures TopNet(rows) == 1
  {
    TopNetBounds(rows);
    assert rows[0].Net() == 1;
  }

  lemma OneCall(e: Event, first: PlannedCall)
    requires Valid(e, first.call)
    ensures AllValid(e, [first]) && ExecAll(e, [first]) == Exec(e, first.call)
    ensures Converted(e, [first]) == Burn(StepOf(e.rows, first.call))
  {
    assert [first][1..] == [];
  }
}
