/**
 * The sweep's scan: sum reported positions per leg and side, and classify each event. On exact
 * balances the scan calls an event actionable exactly when the planner has calls for it.
 */
module Sweep {
  import opened Base
  import opened Ledger
  import opened Planner
  import opened PlanSteps
  import opened Resume
  import opened Layout

  /** A reported position; `asset` is None when the token id does not parse. */
  datatype Position = Position(asset: Option<int>, size: nat)

  datatype EventClassification = EventClassification(
    mergePairs: nat, mergeShares: nat, convertLegs: nat, convertMinNo: nat, mergeable: bool, convertible: bool)
  {
    predicate Actionable() { mergeable || convertible }
  }

  // ----- positions to legs -----

  /** Which leg and side a token id belongs to (true for NO); a later leg overrides an earlier one. */
  function ByToken(legs: seq<ConvertLeg>, n: nat): map<int, (nat, bool)>
    requires n <= |legs|
  {
    if n == 0 then map[]
    else
      var leg := legs[n - 1];
      var m := ByToken(legs, n - 1)[leg.noTokenId := (n - 1, true)];
      if leg.yesTokenId.Some? then m[leg.yesTokenId.value := (n - 1, false)] else m
  }

  predicate Credits(byToken: map<int, (nat, bool)>, p: Position, slot: (nat, bool)) {
    p.asset.Some? && p.asset.value in byToken && byToken[p.asset.value] == slot
  }

  /** The size credited to a leg and side. */
  function Credited(byToken: map<int, (nat, bool)>, positions: seq<Position>, slot: (nat, bool)): nat {
    if positions == [] then 0
    else Credited(byToken, positions[..|positions| - 1], slot)
         + if Credits(byToken, positions[|positions| - 1], slot) then positions[|positions| - 1].size else 0
  }

  /** The reported size of one token. */
  function Total(positions: seq<Position>, id: int): nat {
    if positions == [] then 0
    else Total(positions[..|positions| - 1], id)
         + if positions[|positions| - 1].asset == Some(id) then positions[|positions| - 1].size else 0
  }

  ghost predicate DistinctLegTokens(legs: seq<ConvertLeg>) {
    && (forall i :: 0 <= i < |legs| ==> legs[i].yesTokenId != Some(legs[i].noTokenId))
    && forall i, j, id :: 0 <= i < j < |legs| && HasToken(legs[i], id) ==> !HasToken(legs[j], id)
  }

  method LegSizes(legs: seq<ConvertLeg>, positions: seq<Position>) returns (sizes: seq<(nat, nat)>)
    ensures |sizes| == |legs|
    ensures forall i :: 0 <= i < |legs| ==>
      sizes[i] == (Credited(ByToken(legs, |legs|), positions, (i, true)),
                   Credited(ByToken(legs, |legs|), positions, (i, false)))
  {
    var byToken: map<int, (nat, bool)> := map[];
    for i := 0 to |legs|
      invariant byToken == ByToken(legs, i)
      invariant forall id :: id in byToken ==> byToken[id].0 < i
    {
      byToken := byToken[legs[i].noTokenId := (i, true)];
      if legs[i].yesTokenId.Some? {
        byToken := byToken[legs[i].yesTokenId.value := (i, false)];
      }
    }
    assert forall id :: id in byToken ==> byToken[id].0 < |legs|;
    sizes := seq(|legs|, i => (0, 0));
    for k := 0 to |positions|
      invariant |sizes| == |legs|
      invariant forall i :: 0 <= i < |legs| ==>
        sizes[i] == (Credited(byToken, positions[..k], (i, true)), Credited(byToken, positions[..k], (i, false)))
    {
      var p := positions[k];
      assert positions[..k + 1][..k] == positions[..k] && positions[..k + 1][k] == p;
      if p.asset.Some? && p.asset.value in byToken {
        var (i, isNo) := byToken[p.asset.value];
        assert i < |legs|;
        sizes := sizes[i := if isNo then (sizes[i].0 + p.size, sizes[i].1) else (sizes[i].0, sizes[i].1 + p.size)];
      }
    }
    assert positions[..|positions|] == positions;
  }

  lemma {:induction false} ByTokenIsOwner(legs: seq<ConvertLeg>, n: nat, id: int)
    requires n <= |legs| && DistinctLegTokens(legs)
    ensures id in ByToken(legs, n) ==>
      var (i, isNo) := ByToken(legs, n)[id];
      i < n && (if isNo then legs[i].noTokenId == id else legs[i].yesTokenId == Some(id))
    ensures forall i :: 0 <= i < n && HasToken(legs[i], id) ==>
      id in ByToken(legs, n) && ByToken(legs, n)[id] == (i, legs[i].noTokenId == id)
  {
    if n > 0 {
      ByTokenIsOwner(legs, n - 1, id);
    }
  }

  /** With distinct tokens, a leg is credited with exactly the reported size of its own token. */
  lemma {:induction false} CreditedIsTotal(legs: seq<ConvertLeg>, positions: seq<Position>, i: nat)
    requires DistinctLegTokens(legs) && i < |legs|
    ensures Credited(ByToken(legs, |legs|), positions, (i, true)) == Total(positions, legs[i].noTokenId)
    ensures Credited(ByToken(legs, |legs|), positions, (i, false)) ==
      if legs[i].yesTokenId.Some? then Total(positions, legs[i].yesTokenId.value) else 0
  {
    if positions != [] {
      var p := positions[|positions| - 1];
      CreditedIsTotal(legs, positions[..|positions| - 1], i);
      if p.asset.Some? {
        ByTokenIsOwner(legs, |legs|, p.asset.value);
      }
    }
  }

  // ----- classification -----

  /** The smallest holding, 0 when there is none. */
  function MinRemaining(holdings: seq<NoHolding>): nat {
    if holdings == [] then 0
    else if |holdings| == 1 then holdings[0].remainingNo
    else Min(holdings[0].remainingNo, MinRemaining(holdings[1..]))
  }

  lemma {:induction false} MinAppend(holdings: seq<NoHolding>, h: NoHolding)
    ensures MinRemaining(holdings + [h]) ==
      if holdings == [] then h.remainingNo else Min(MinRemaining(holdings), h.remainingNo)
  {
    if |holdings| > 0 {
      assert (holdings + [h])[1..] == holdings[1..] + [h];
      MinAppend(holdings[1..], h);
    }
  }

  /** The planner has tiers exactly for several holdings, or a lone one at or above the floor. */
  lemma TiersIff(holdings: seq<NoHolding>, floor: int, cap: nat)
    ensures Tiers(holdings, floor, cap) != [] <==>
      |holdings| > 1 || (|holdings| == 1 && holdings[0].remainingNo >= floor)
  {
    var levels := SortedLevels(holdings);
    if |holdings| > 1 {
      if Tiers(holdings, floor, cap) == [] {
        NoTiersLoneHolding(holdings, floor, cap);
      }
    } else if |holdings| == 1 {
      assert holdings[1..] == [] && SortedLevels(holdings[1..]) == [];
      assert levels[0] == holdings[0].remainingNo;
      AtLeastAll(holdings, levels[0]);
    }
  }

  lemma {:induction false} AmountsAppend(items: seq<MergeItem>, item: MergeItem)
    ensures SumAmounts(items + [item]) == SumAmounts(items) + item.amount
  {
    if items != [] {
      assert (items + [item])[1..] == items[1..] + [item];
      AmountsAppend(items[1..], item);
    } else {
      assert ([item])[1..] == [];
    }
  }

  method ClassifySizes(legs: seq<ConvertLeg>, sizes: seq<(nat, nat)>, singleLegMinQty: int)
    returns (c: EventClassification)
    ensures c.mergePairs == |Merges(Zip(legs, sizes))|
    ensures c.mergeShares == SumAmounts(Merges(Zip(legs, sizes)))
    ensures c.convertLegs == |Holdings(Zip(legs, sizes))|
    ensures c.convertMinNo == MinRemaining(Holdings(Zip(legs, sizes)))
    ensures c.mergeable <==> Merges(Zip(legs, sizes)) != []
    ensures forall cap :: c.convertible <==> Tiers(Holdings(Zip(legs, sizes)), singleLegMinQty, cap) != []
  {
    var mergePairs, mergeShares, convertLegs := 0, 0, 0;
    var minNo: Option<nat> := None;
    ghost var rows := Zip(legs, sizes);
    ghost var merges: seq<MergeItem>, holdings: seq<NoHolding> := [], [];
    assert rows[0..] == rows;
    var n := Min(|legs|, |sizes|);
    for i := 0 to n
      invariant merges + Merges(rows[i..]) == Merges(rows) && holdings + Holdings(rows[i..]) == Holdings(rows)
      invariant mergePairs == |merges| && mergeShares == SumAmounts(merges)
      invariant convertLegs == |holdings|
      invariant minNo == if holdings == [] then None else Some(MinRemaining(holdings))
    {
      var (no, yes) := sizes[i];
      ClassifyStep(rows, i, merges, holdings);
      if no > 0 && yes > 0 && legs[i].conditionId.Some? {
        mergePairs := mergePairs + 1;
        mergeShares := mergeShares + Min(no, yes);
        AmountsAppend(merges, MergeOf(rows[i])[0]);
      }
      assert MergeOf(rows[i]) == [] ==> merges + MergeOf(rows[i]) == merges;
      merges := merges + MergeOf(rows[i]);
      var remainingNo := no - Min(no, yes);
      if remainingNo > 0 {
        convertLegs := convertLegs + 1;
        minNo := Some(if minNo.None? then remainingNo else Min(minNo.value, remainingNo));
        MinAppend(holdings, HoldingOf(rows[i])[0]);
      }
      assert HoldingOf(rows[i]) == [] ==> holdings + HoldingOf(rows[i]) == holdings;
      holdings := holdings + HoldingOf(rows[i]);
    }
    assert rows[n..] == [] && merges + [] == merges && holdings + [] == holdings;
    var mergeable := mergePairs > 0;
    var convertible := convertLegs > 1 || (convertLegs == 1 && minNo.value >= singleLegMinQty);
    forall cap: nat {
      TiersIff(holdings, singleLegMinQty, cap);
    }
    c := EventClassification(
      mergePairs, mergeShares, convertLegs, if minNo.Some? then minNo.value else 0, mergeable, convertible);
  }

  /** An event has calls exactly when it has merges or tiers. */
  lemma CallsIff(e: Event, floor: int, cap: nat)
    requires cap >= 1
    ensures Calls(e, floor, cap) != [] <==>
      Merges(e.rows) != [] || Tiers(Holdings(e.rows), floor, cap) != []
  {
    CallsFrom(e, floor, cap, Merges(e.rows), Tiers(Holdings(e.rows), floor, cap));
  }

  /** Reported sizes that match the chain: each leg's tokens total its balances. */
  ghost predicate Exact(positions: seq<Position>, rows: seq<Row>) {
    forall i :: 0 <= i < |rows| ==>
      && Total(positions, rows[i].leg.noTokenId) == rows[i].no
      && (if rows[i].leg.yesTokenId.Some? then Total(positions, rows[i].leg.yesTokenId.value) else 0) == rows[i].yes
  }

  /** On exact reports, the scan picks an event exactly when its plan has calls. */
  method ScanEvent(e: Event, legs: seq<ConvertLeg>, positions: seq<Position>, floor: int)
    returns (c: EventClassification)
    requires |legs| == |e.rows| && forall i :: 0 <= i < |legs| ==> legs[i] == e.rows[i].leg
    requires DistinctLegTokens(legs) && Exact(positions, e.rows)
    ensures c.Actionable() <==> Calls(e, floor, MAX_LEGS_PER_CONVERT) != []
    ensures c.mergeShares == SumAmounts(Plan(e, floor, MAX_LEGS_PER_CONVERT).merges)
  {
    var sizes := LegSizes(legs, positions);
    forall i | 0 <= i < |legs| ensures sizes[i] == (e.rows[i].no, e.rows[i].yes) {
      CreditedIsTotal(legs, positions, i);
    }
    assert Zip(legs, sizes) == e.rows;
    c := ClassifySizes(legs, sizes, floor);
    CallsIff(e, floor, MAX_LEGS_PER_CONVERT);
  }
}
