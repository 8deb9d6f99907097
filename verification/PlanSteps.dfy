/**
 * Running a plan. A call names its legs by condition id or by bitmap; here it is decoded into a
 * ledger step, and what the first planned step leaves to be planned is worked out. Resume draws
 * the conclusion over whole plans.
 */
module PlanSteps {
  import opened Base
  import opened IndexSet
  import opened Ledger
  import opened Planner

  function Position(r: Row): nat {
    r.leg.questionId[31]
  }

  ghost predicate DistinctPositions(rows: seq<Row>) {
    forall i, j :: 0 <= i < j < |rows| ==> Position(rows[i]) != Position(rows[j])
  }

  ghost predicate DistinctConditions(rows: seq<Row>) {
    forall i, j :: 0 <= i < j < |rows| && rows[i].leg.conditionId.Some? ==>
      rows[i].leg.conditionId != rows[j].leg.conditionId
  }

  /** The legs are one negRisk event: a shared market id, distinct positions and conditions. */
  ghost predicate WellFormed(e: Event) {
    && (forall i :: 0 <= i < |e.rows| ==> MarketId(e.rows[i].leg.questionId) == e.market)
    && DistinctPositions(e.rows)
    && DistinctConditions(e.rows)
  }

  // ----- decoding a call -----

  /** The first leg with this condition id, or the number of legs when there is none. */
  function FindCondition(rows: seq<Row>, conditionId: Bytes32): (i: nat)
    ensures i <= |rows|
    ensures i < |rows| ==> rows[i].leg.conditionId == Some(conditionId)
    ensures forall j :: 0 <= j < i ==> rows[j].leg.conditionId != Some(conditionId)
  {
    if rows == [] || rows[0].leg.conditionId == Some(conditionId) then 0
    else 1 + FindCondition(rows[1..], conditionId)
  }

  function Mask(rows: seq<Row>, bits: nat): (mask: seq<bool>)
    ensures |mask| == |rows|
    ensures forall i :: 0 <= i < |rows| ==> mask[i] == Bit(bits, Position(rows[i]))
  {
    if rows == [] then [] else [Bit(bits, Position(rows[0]))] + Mask(rows[1..], bits)
  }

  function StepOf(rows: seq<Row>, call: Call): Step {
    match call
    case MergeCall(cid, a) => Merge(FindCondition(rows, cid), a)
    case ConvertCall(_, bits, a) => Convert(Mask(rows, bits), a)
  }

  /** Whether the call addresses this event. */
  predicate Owns(e: Event, call: Call) {
    match call
    case MergeCall(cid, _) => FindCondition(e.rows, cid) < |e.rows|
    case ConvertCall(market, _, _) => market == e.market
  }

  predicate Valid(e: Event, call: Call) {
    Owns(e, call) && CanStep(e, StepOf(e.rows, call))
  }

  function Exec(e: Event, call: Call): Event
    requires Valid(e, call)
  {
    Apply(e, StepOf(e.rows, call))
  }

  // ----- the plan of an event -----

  lemma {:induction false} AtLeastHolds(holdings: seq<NoHolding>, level: nat, j: nat)
    requires j < |holdings| && holdings[j].remainingNo >= level
    ensures AtLeast(holdings, level) != []
  {
    if j > 0 {
      AtLeastHolds(holdings[1..], level, j - 1);
    }
  }

  lemma HeldTier(holdings: seq<NoHolding>, level: nat, amount: nat, cap: nat)
    requires cap >= 1 && Held(holdings, level)
    ensures TierOf(AtLeast(holdings, level), amount, cap).questionIds != []
  {
    var j :| 0 <= j < |holdings| && holdings[j].remainingNo == level;
    AtLeastHolds(holdings, level, j);
  }

  lemma {:induction false} TiersAreNonEmpty(
      holdings: seq<NoHolding>, levels: seq<nat>, prev: nat, floor: int, cap: nat)
    requires cap >= 1 && forall i :: 0 <= i < |levels| ==> Held(holdings, levels[i])
    ensures NoEmptyTier(TiersOver(holdings, levels, prev, floor, cap))
    decreases |levels|
  {
    if levels != [] {
      HeldTier(holdings, levels[0], Gap(prev, levels[0]), cap);
      TiersAreNonEmpty(holdings, levels[1..], levels[0], floor, cap);
    }
  }

  lemma PlanNeverEmptyTier(holdings: seq<NoHolding>, floor: int, cap: nat)
    requires cap >= 1
    ensures NoEmptyTier(Tiers(holdings, floor, cap))
  {
    var levels := SortedLevels(holdings);
    forall i | 0 <= i < |levels| ensures Held(holdings, levels[i]) {
      LevelsAreSizes(holdings, levels[i]);
    }
    TiersAreNonEmpty(holdings, levels, 0, floor, cap);
  }

  function Plan(e: Event, floor: int, cap: nat): EventPlan {
    PlanOf(e.rows, |e.rows|, floor, cap)
  }

  function Calls(e: Event, floor: int, cap: nat): seq<PlannedCall>
    requires cap >= 1
  {
    PlanNeverEmptyTier(Holdings(e.rows), floor, cap);
    CallsOfPlan(Plan(e, floor, cap))
  }

  // ----- the head of the plan is a merge -----

  function Netted(r: Row): Row {
    Row(r.leg, r.no - r.Paired(), r.yes - r.Paired())
  }

  /** Merging the first mergeable leg removes the first merge and leaves every holding alone. */
  lemma {:induction false} FirstMerge(rows: seq<Row>) returns (i: nat)
    requires Merges(rows) != []
    ensures i < |rows| && Mergeable(rows[i])
    ensures Merges(rows)[0] == MergeItem(rows[i].leg.conditionId.value, rows[i].Paired())
    ensures Merges(rows[i := Netted(rows[i])]) == Merges(rows)[1..]
    ensures Holdings(rows[i := Netted(rows[i])]) == Holdings(rows)
  {
    if Mergeable(rows[0]) {
      i := 0;
      assert rows[0 := Netted(rows[0])][1..] == rows[1..];
    } else {
      var k := FirstMerge(rows[1..]);
      i := k + 1;
      assert rows[i := Netted(rows[i])][1..] == rows[1..][k := Netted(rows[1..][k])];
    }
  }

  // ----- the head of the plan is a convert -----

  /** Selects the first `cap` legs with leftover NO. */
  function FirstMask(rows: seq<Row>, cap: nat): (mask: seq<bool>)
    ensures |mask| == |rows|
    ensures forall i :: 0 <= i < |rows| && mask[i] ==> rows[i].Leftover() > 0
  {
    if rows == [] then []
    else if rows[0].Leftover() > 0 && cap > 0 then [true] + FirstMask(rows[1..], cap - 1)
    else [false] + FirstMask(rows[1..], cap)
  }

  /** Whether the next holding of `rows` is within the cap, and the cap left for the other legs. */
  predicate TakesHead(rows: seq<Row>, cap: nat)
    requires rows != []
  {
    rows[0].Leftover() > 0 && cap > 0
  }

  function CapLeft(rows: seq<Row>, cap: nat): nat
    requires rows != []
  {
    if TakesHead(rows, cap) then cap - 1 else cap
  }

  lemma ChosenSplit(rows: seq<Row>, cap: nat)
    requires rows != []
    ensures var chosen := Take(Holdings(rows[1..]), CapLeft(rows, cap));
      Take(Holdings(rows), cap) == if TakesHead(rows, cap) then HoldingOf(rows[0]) + chosen else chosen
    ensures var later := Drop(Holdings(rows[1..]), CapLeft(rows, cap));
      Drop(Holdings(rows), cap) ==
        if rows[0].Leftover() > 0 && cap == 0 then HoldingOf(rows[0]) + later else later
  {
    var tail := Holdings(rows[1..]);
    if rows[0].Leftover() == 0 {
      assert Holdings(rows) == tail;
    } else if cap > 0 {
      TakeHead(HoldingOf(rows[0])[0], tail, cap);
    }
  }

  lemma TakeHead(h: NoHolding, tail: seq<NoHolding>, cap: nat)
    requires cap > 0
    ensures Take([h] + tail, cap) == [h] + Take(tail, cap - 1)
    ensures Drop([h] + tail, cap) == Drop(tail, cap - 1)
  {
  }

  predicate NamesPosition(holdings: seq<NoHolding>, k: nat) {
    holdings != [] && (holdings[0].questionId[31] == k || NamesPosition(holdings[1..], k))
  }

  lemma {:induction false} NamesPositionIsMembership(holdings: seq<NoHolding>, k: nat)
    ensures NamesPosition(holdings, k) <==>
      exists i :: 0 <= i < |QuestionIds(holdings)| && QuestionIds(holdings)[i][31] == k
  {
    if holdings != [] {
      var ids, rest := QuestionIds(holdings), QuestionIds(holdings[1..]);
      NamesPositionIsMembership(holdings[1..], k);
      assert ids == [ids[0]] + rest;
      if i :| 0 <= i < |rest| && rest[i][31] == k {
        assert ids[i + 1][31] == k;
      }
    }
  }

  lemma NamesPositionIsBit(holdings: seq<NoHolding>, k: nat)
    ensures Bit(Bitmap(QuestionIds(holdings)), k) == NamesPosition(holdings, k)
  {
    BitmapBit(QuestionIds(holdings), k);
    NamesPositionIsMembership(holdings, k);
  }

  lemma NamesHead(rows: seq<Row>, cap: nat, k: nat)
    requires rows != []
    ensures NamesPosition(Take(Holdings(rows), cap), k) <==>
      (TakesHead(rows, cap) && Position(rows[0]) == k)
      || NamesPosition(Take(Holdings(rows[1..]), CapLeft(rows, cap)), k)
  {
    ChosenSplit(rows, cap);
    var later := Take(Holdings(rows[1..]), CapLeft(rows, cap));
    if TakesHead(rows, cap) {
      assert (HoldingOf(rows[0]) + later)[1..] == later;
    }
  }

  lemma {:induction false} NotNamed(rows: seq<Row>, cap: nat, k: nat)
    requires forall i :: 0 <= i < |rows| ==> Position(rows[i]) != k
    ensures !NamesPosition(Take(Holdings(rows), cap), k)
  {
    if rows != [] {
      assert forall i :: 0 <= i < |rows[1..]| ==> rows[1..][i] == rows[i + 1];
      NotNamed(rows[1..], CapLeft(rows, cap), k);
      NamesHead(rows, cap, k);
    }
  }

  lemma {:induction false} MaskIsFirstMask(rows: seq<Row>, cap: nat, bits: nat)
    requires DistinctPositions(rows)
    requires forall i :: 0 <= i < |rows| ==>
      Bit(bits, Position(rows[i])) == NamesPosition(Take(Holdings(rows), cap), Position(rows[i]))
    ensures Mask(rows, bits) == FirstMask(rows, cap)
  {
    if rows != [] {
      var tail, rest := rows[1..], CapLeft(rows, cap);
      assert forall i :: 0 <= i < |tail| ==> tail[i] == rows[i + 1];
      NotNamed(tail, rest, Position(rows[0]));
      ChosenSplit(rows, cap);
      forall i | 0 <= i < |tail|
        ensures Bit(bits, Position(tail[i])) == NamesPosition(Take(Holdings(tail), rest), Position(tail[i]))
      {
        NamesHead(rows, cap, Position(tail[i]));
        assert Bit(bits, Position(rows[i + 1])) == NamesPosition(Take(Holdings(rows), cap), Position(rows[i + 1]));
      }
      MaskIsFirstMask(tail, rest, bits);
      NamesHead(rows, cap, Position(rows[0]));
    }
  }

  /** The bitmap of a tier's question ids selects exactly the first `cap` NO-holding legs. */
  lemma TierMask(rows: seq<Row>, cap: nat)
    requires DistinctPositions(rows)
    ensures Mask(rows, Bitmap(QuestionIds(Take(Holdings(rows), cap)))) == FirstMask(rows, cap)
  {
    var chosen := Take(Holdings(rows), cap);
    var ids := QuestionIds(chosen);
    forall i | 0 <= i < |rows|
      ensures Bit(Bitmap(ids), Position(rows[i])) == NamesPosition(chosen, Position(rows[i]))
    {
      NamesPositionIsBit(chosen, Position(rows[i]));
    }
    MaskIsFirstMask(rows, cap, Bitmap(ids));
  }

  lemma {:induction false} HoldingsComeFromRows(rows: seq<Row>, j: nat) returns (i: nat)
    requires j < |Holdings(rows)|
    ensures i < |rows| && rows[i].Leftover() > 0
    ensures Holdings(rows)[j] == NoHolding(rows[i].leg.questionId, rows[i].leg.conditionId, rows[i].Leftover())
  {
    var n := |HoldingOf(rows[0])|;
    if j < n {
      i := 0;
    } else {
      var k := HoldingsComeFromRows(rows[1..], j - n);
      i := k + 1;
    }
  }

  lemma {:induction false} FirstMaskCount(rows: seq<Row>, cap: nat)
    ensures CountTrue(FirstMask(rows, cap)) == Min(cap, |Holdings(rows)|)
  {
    if rows != [] {
      FirstMaskCount(rows[1..], if rows[0].Leftover() > 0 && cap > 0 then cap - 1 else cap);
    }
  }

  /** The holdings that stay above `a`, each lowered by it. */
  function Lower(holdings: seq<NoHolding>, a: nat): seq<NoHolding> {
    if holdings == [] then []
    else (if holdings[0].remainingNo > a then [holdings[0].(remainingNo := holdings[0].remainingNo - a)] else [])
         + Lower(holdings[1..], a)
  }

  predicate EachHolds(rows: seq<Row>, a: nat) {
    forall i :: 0 <= i < |rows| && rows[i].Leftover() > 0 ==> a <= rows[i].Leftover()
  }

  lemma ConvertRowEffect(r: Row, burned: bool, a: nat)
    requires !Mergeable(r) && a > 0 && (r.Leftover() > 0 ==> a <= r.Leftover())
    requires burned ==> r.Leftover() > 0
    ensures burned ==> a <= r.no
    ensures MergeOf(ConvertRow(r, burned, a)) == (if burned then [] else PostMerges(HoldingOf(r), a))
    ensures HoldingOf(ConvertRow(r, burned, a)) == Lower(HoldingOf(r), a)
  {
  }

  lemma ConvertRowsHead(rows: seq<Row>, mask: seq<bool>, a: nat)
    requires rows != [] && |mask| == |rows| && Covers(rows, mask, a)
    ensures Covers(rows[1..], mask[1..], a) && (mask[0] ==> a <= rows[0].no)
    ensures var head, rest := ConvertRow(rows[0], mask[0], a), ConvertRows(rows[1..], mask[1..], a);
      && Merges(ConvertRows(rows, mask, a)) == MergeOf(head) + Merges(rest)
      && Holdings(ConvertRows(rows, mask, a)) == HoldingOf(head) + Holdings(rest)
  {
    var out := ConvertRows(rows, mask, a);
    var rest := ConvertRows(rows[1..], mask[1..], a);
    assert out == [ConvertRow(rows[0], mask[0], a)] + rest;
    assert out[1..] == rest;
  }

  lemma PostMergesSplit(rows: seq<Row>, cap: nat, a: nat)
    requires rows != []
    ensures PostMerges(Drop(Holdings(rows), cap), a) ==
      (if TakesHead(rows, cap) then [] else PostMerges(HoldingOf(rows[0]), a))
      + PostMerges(Drop(Holdings(rows[1..]), CapLeft(rows, cap)), a)
  {
    ChosenSplit(rows, cap);
    var later := Drop(Holdings(rows[1..]), CapLeft(rows, cap));
    if rows[0].Leftover() > 0 && cap == 0 {
      assert (HoldingOf(rows[0]) + later)[1..] == later && HoldingOf(rows[0])[1..] == [];
    } else {
      assert Drop(Holdings(rows), cap) == later;
    }
  }

  lemma LowerSplit(rows: seq<Row>, a: nat)
    requires rows != []
    ensures Lower(Holdings(rows), a) == Lower(HoldingOf(rows[0]), a) + Lower(Holdings(rows[1..]), a)
  {
    if rows[0].Leftover() > 0 {
      assert Holdings(rows)[1..] == Holdings(rows[1..]);
      assert HoldingOf(rows[0])[1..] == [];
    } else {
      assert Holdings(rows) == Holdings(rows[1..]);
    }
  }

  lemma FirstMaskCovers(rows: seq<Row>, cap: nat, a: nat)
    requires EachHolds(rows, a)
    ensures Covers(rows, FirstMask(rows, cap), a)
  {
    forall i | 0 <= i < |rows| && FirstMask(rows, cap)[i] ensures a <= rows[i].no {
      assert a <= rows[i].Leftover();
    }
  }

  lemma MergedTail(rows: seq<Row>, a: nat)
    requires rows != [] && Merges(rows) == [] && EachHolds(rows, a)
    ensures !Mergeable(rows[0]) && Merges(rows[1..]) == [] && EachHolds(rows[1..], a)
  {
    assert forall i :: 0 <= i < |rows[1..]| ==> rows[1..][i] == rows[i + 1];
  }

  /** ConvertRows under the first-`cap` mask. */
  function ConvertFirstRows(rows: seq<Row>, cap: nat, a: nat): (out: seq<Row>)
    requires EachHolds(rows, a)
  {
    FirstMaskCovers(rows, cap, a);
    ConvertRows(rows, FirstMask(rows, cap), a)
  }

  lemma ConvertFirstRowsHead(rows: seq<Row>, cap: nat, a: nat)
    requires rows != [] && EachHolds(rows, a)
    ensures EachHolds(rows[1..], a) && (TakesHead(rows, cap) ==> a <= rows[0].no)
    ensures var out, rest := ConvertFirstRows(rows, cap, a), ConvertFirstRows(rows[1..], CapLeft(rows, cap), a);
      out == [ConvertRow(rows[0], TakesHead(rows, cap), a)] + rest && out[1..] == rest
  {
    assert forall i :: 0 <= i < |rows[1..]| ==> rows[1..][i] == rows[i + 1];
    var mask := FirstMask(rows, cap);
    assert mask[0] == TakesHead(rows, cap) && mask[1..] == FirstMask(rows[1..], CapLeft(rows, cap));
    FirstMaskCovers(rows, cap, a);
  }

  lemma ConvertFirstHead(rows: seq<Row>, cap: nat, a: nat)
    requires rows != [] && Merges(rows) == [] && a > 0 && EachHolds(rows, a)
    ensures EachHolds(rows[1..], a)
    ensures var rest := ConvertFirstRows(rows[1..], CapLeft(rows, cap), a);
      && Merges(ConvertFirstRows(rows, cap, a)) ==
           (if TakesHead(rows, cap) then [] else PostMerges(HoldingOf(rows[0]), a)) + Merges(rest)
      && Holdings(ConvertFirstRows(rows, cap, a)) == Lower(HoldingOf(rows[0]), a) + Holdings(rest)
  {
    MergedTail(rows, a);
    FirstMaskCovers(rows, cap, a);
    var mask := FirstMask(rows, cap);
    assert mask[0] == TakesHead(rows, cap) && mask[1..] == FirstMask(rows[1..], CapLeft(rows, cap));
    ConvertRowsHead(rows, mask, a);
    ConvertRowEffect(rows[0], mask[0], a);
  }

  /**
   * After every pair is merged, converting the first `cap` holdings turns the truncated ones
   * into the next merges and lowers every holding, truncated or not, by the amount.
   */
  lemma {:induction false} ConvertFirst(rows: seq<Row>, cap: nat, a: nat)
    requires Merges(rows) == [] && a > 0 && EachHolds(rows, a)
    ensures Merges(ConvertFirstRows(rows, cap, a)) == PostMerges(Drop(Holdings(rows), cap), a)
    ensures Holdings(ConvertFirstRows(rows, cap, a)) == Lower(Holdings(rows), a)
  {
    if rows != [] {
      MergedTail(rows, a);
      ConvertFirst(rows[1..], CapLeft(rows, cap), a);
      ConvertFirstHead(rows, cap, a);
      PostMergesSplit(rows, cap, a);
      LowerSplit(rows, a);
    }
  }
}
