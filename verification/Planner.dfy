/**
 * The merge/convert planner: classify a balance snapshot, cut the leftover NO into tiers,
 * and flatten the plan into an ordered call list. Each method is proved equal to a function
 * of the snapshot; PlanSteps, Optimality and Truncation prove what those functions mean.
 */
module Planner {
  import opened Base
  import opened IndexSet
  import opened Ledger

  const MAX_LEGS_PER_CONVERT: nat := 20
  const MERGE_GAS: nat := 400_000

  function ConvertGas(nEventLegs: nat): nat {
    700_000 + 175_000 * nEventLegs
  }

  datatype MergeItem = MergeItem(conditionId: Bytes32, amount: nat)

  datatype NoHolding = NoHolding(questionId: Bytes32, conditionId: Option<Bytes32>, remainingNo: nat)

  datatype ConvertTier = ConvertTier(questionIds: seq<Bytes32>, amount: nat, postMerges: seq<MergeItem>)

  datatype EventPlan = EventPlan(merges: seq<MergeItem>, tiers: seq<ConvertTier>, proceeds: int, nLegs: nat)

  datatype Call =
    | MergeCall(conditionId: Bytes32, amount: nat)
    | ConvertCall(marketId: Bytes32, indexSet: nat, amount: nat)

  datatype PlannedCall = PlannedCall(call: Call, gas: nat)

  datatype PlanError = EmptyConvert

  function MarketId(questionId: Bytes32): Bytes32 {
    questionId[..31] + [0]
  }

  // ----- classification -----

  /** Pairs each leg with its `(no, yes)` balances; the longer list is cut to the shorter. */
  function Zip(legs: seq<ConvertLeg>, pairs: seq<(nat, nat)>): (rows: seq<Row>)
    ensures |rows| == Min(|legs|, |pairs|)
    ensures forall i :: 0 <= i < |rows| ==> rows[i] == Row(legs[i], pairs[i].0, pairs[i].1)
  {
    if legs == [] || pairs == [] then []
    else [Row(legs[0], pairs[0].0, pairs[0].1)] + Zip(legs[1..], pairs[1..])
  }

  predicate Mergeable(r: Row) {
    r.yes > 0 && r.no > 0 && r.leg.conditionId.Some?
  }

  function MergeOf(r: Row): seq<MergeItem> {
    if Mergeable(r) then [MergeItem(r.leg.conditionId.value, r.Paired())] else []
  }

  function HoldingOf(r: Row): seq<NoHolding> {
    if r.Leftover() > 0 then [NoHolding(r.leg.questionId, r.leg.conditionId, r.Leftover())] else []
  }

  function Merges(rows: seq<Row>): seq<MergeItem> {
    if rows == [] then [] else MergeOf(rows[0]) + Merges(rows[1..])
  }

  function Holdings(rows: seq<Row>): seq<NoHolding> {
    if rows == [] then [] else HoldingOf(rows[0]) + Holdings(rows[1..])
  }

  lemma ClassifyStep(rows: seq<Row>, i: nat, merges: seq<MergeItem>, holdings: seq<NoHolding>)
    requires i < |rows|
    ensures merges + Merges(rows[i..]) == (merges + MergeOf(rows[i])) + Merges(rows[i + 1..])
    ensures holdings + Holdings(rows[i..]) == (holdings + HoldingOf(rows[i])) + Holdings(rows[i + 1..])
  {
    assert rows[i..][0] == rows[i] && rows[i..][1..] == rows[i + 1..];
    AppendAssoc(merges, MergeOf(rows[i]), Merges(rows[i + 1..]));
    AppendAssoc(holdings, HoldingOf(rows[i]), Holdings(rows[i + 1..]));
  }

  method ClassifyEvent(legs: seq<ConvertLeg>, pairs: seq<(nat, nat)>)
    returns (merges: seq<MergeItem>, holdings: seq<NoHolding>)
    ensures merges == Merges(Zip(legs, pairs))
    ensures holdings == Holdings(Zip(legs, pairs))
  {
    merges, holdings := [], [];
    ghost var rows := Zip(legs, pairs);
    assert rows[0..] == rows;
    var n := Min(|legs|, |pairs|);
    for i := 0 to n
      invariant merges + Merges(rows[i..]) == Merges(rows)
      invariant holdings + Holdings(rows[i..]) == Holdings(rows)
    {
      ghost var merges0, holdings0 := merges, holdings;
      var leg := legs[i];
      var (noBal, yesBal) := pairs[i];
      if yesBal > 0 && noBal > 0 && leg.conditionId.Some? {
        merges := merges + [MergeItem(leg.conditionId.value, Min(yesBal, noBal))];
      }
      assert merges == merges0 + MergeOf(rows[i]);
      var remainingNo := noBal - Min(yesBal, noBal);
      if remainingNo > 0 {
        holdings := holdings + [NoHolding(leg.questionId, leg.conditionId, remainingNo)];
      }
      assert holdings == holdings0 + HoldingOf(rows[i]);
      ClassifyStep(rows, i, merges0, holdings0);
    }
    assert rows[n..] == [];
  }

  // ----- tiers -----

  ghost predicate Increasing(levels: seq<nat>) {
    forall i, j :: 0 <= i < j < |levels| ==> levels[i] < levels[j]
  }

  function InsertLevel(levels: seq<nat>, x: nat): seq<nat> {
    if levels == [] || x < levels[0] then [x] + levels
    else if x == levels[0] then levels
    else [levels[0]] + InsertLevel(levels[1..], x)
  }

  /** The distinct holding sizes, in increasing order. */
  function SortedLevels(holdings: seq<NoHolding>): seq<nat> {
    if holdings == [] then []
    else InsertLevel(SortedLevels(holdings[1..]), holdings[0].remainingNo)
  }

  lemma {:induction false} InsertLevelSorts(levels: seq<nat>, x: nat)
    requires Increasing(levels)
    ensures Increasing(InsertLevel(levels, x))
    ensures forall v :: v in InsertLevel(levels, x) <==> v == x || v in levels
  {
    if levels != [] && x > levels[0] {
      var tail, rest := levels[1..], InsertLevel(levels[1..], x);
      InsertLevelSorts(tail, x);
      forall i | 0 <= i < |rest| ensures levels[0] < rest[i] {
        assert rest[i] in rest;
        if rest[i] != x {
          var j :| 0 <= j < |tail| && tail[j] == rest[i];
          assert levels[j + 1] == rest[i];
        }
      }
      assert levels == [levels[0]] + tail;
    }
  }

  ghost predicate Held(holdings: seq<NoHolding>, v: nat) {
    exists i :: 0 <= i < |holdings| && holdings[i].remainingNo == v
  }

  lemma HeldSplit(holdings: seq<NoHolding>, v: nat)
    requires holdings != []
    ensures Held(holdings, v) <==> holdings[0].remainingNo == v || Held(holdings[1..], v)
  {
    if i :| 0 <= i < |holdings[1..]| && holdings[1..][i].remainingNo == v {
      assert holdings[i + 1].remainingNo == v;
    }
    if i :| 0 <= i < |holdings| && holdings[i].remainingNo == v {
      assert i == 0 || holdings[1..][i - 1].remainingNo == v;
    }
  }

  lemma {:induction false} LevelsIncrease(holdings: seq<NoHolding>)
    ensures Increasing(SortedLevels(holdings))
  {
    if holdings != [] {
      LevelsIncrease(holdings[1..]);
      InsertLevelSorts(SortedLevels(holdings[1..]), holdings[0].remainingNo);
    }
  }

  lemma {:induction false} LevelsAreSizes(holdings: seq<NoHolding>, v: nat)
    ensures v in SortedLevels(holdings) <==> Held(holdings, v)
  {
    if holdings != [] {
      LevelsAreSizes(holdings[1..], v);
      LevelsIncrease(holdings[1..]);
      InsertLevelSorts(SortedLevels(holdings[1..]), holdings[0].remainingNo);
      HeldSplit(holdings, v);
    }
  }

  function AtLeast(holdings: seq<NoHolding>, level: nat): seq<NoHolding> {
    if holdings == [] then []
    else (if holdings[0].remainingNo >= level then [holdings[0]] else []) + AtLeast(holdings[1..], level)
  }

  function QuestionIds(holdings: seq<NoHolding>): (ids: seq<Bytes32>)
    ensures |ids| == |holdings|
    ensures forall i :: 0 <= i < |ids| ==> ids[i] == holdings[i].questionId
  {
    if holdings == [] then [] else [holdings[0].questionId] + QuestionIds(holdings[1..])
  }

  function PostMerges(holdings: seq<NoHolding>, amount: nat): seq<MergeItem> {
    if holdings == [] then []
    else (if holdings[0].conditionId.Some? then [MergeItem(holdings[0].conditionId.value, amount)] else [])
         + PostMerges(holdings[1..], amount)
  }

  /** Python's `members[:cap]` and `members[cap:]`. */
  function Take<T>(s: seq<T>, cap: nat): seq<T> {
    if cap <= |s| then s[..cap] else s
  }

  function Drop<T>(s: seq<T>, cap: nat): seq<T> {
    if cap <= |s| then s[cap..] else []
  }

  function TierOf(members: seq<NoHolding>, amount: nat, cap: nat): ConvertTier {
    ConvertTier(QuestionIds(Take(members, cap)), amount, PostMerges(Drop(members, cap), amount))
  }

  /** How far `level` lies above the previous one; levels increase, so nothing is cut off. */
  function Gap(prev: nat, level: nat): nat {
    if prev <= level then level - prev else 0
  }

  /** The tier of these members and whatever follows it; a lone dust tier ends the plan. */
  function TierThen(members: seq<NoHolding>, amount: nat, floor: int, cap: nat, rest: seq<ConvertTier>)
    : seq<ConvertTier>
  {
    if |members| == 1 && amount < floor then [] else [TierOf(members, amount, cap)] + rest
  }

  function TiersOver(holdings: seq<NoHolding>, levels: seq<nat>, prev: nat, floor: int, cap: nat)
    : seq<ConvertTier>
    decreases |levels|
  {
    if levels == [] then []
    else TierThen(AtLeast(holdings, levels[0]), Gap(prev, levels[0]), floor, cap,
                  TiersOver(holdings, levels[1..], levels[0], floor, cap))
  }

  /** One tier per level, each converting the gap to the level below across its holders. */
  function Tiers(holdings: seq<NoHolding>, floor: int, cap: nat): seq<ConvertTier> {
    TiersOver(holdings, SortedLevels(holdings), 0, floor, cap)
  }

  /** The tiers still to come at the `i`-th level. */
  function TiersLeft(holdings: seq<NoHolding>, levels: seq<nat>, i: nat, prev: nat, floor: int, cap: nat)
    : seq<ConvertTier>
    requires i <= |levels|
  {
    TiersOver(holdings, levels[i..], prev, floor, cap)
  }

  lemma TiersLeftStep(holdings: seq<NoHolding>, levels: seq<nat>, i: nat, prev: nat, floor: int, cap: nat)
    requires i < |levels|
    ensures TiersLeft(holdings, levels, i, prev, floor, cap) ==
      TierThen(AtLeast(holdings, levels[i]), Gap(prev, levels[i]), floor, cap,
               TiersLeft(holdings, levels, i + 1, levels[i], floor, cap))
  {
    assert levels[i..][0] == levels[i] && levels[i..][1..] == levels[i + 1..];
  }

  method PlanTiers(holdings: seq<NoHolding>, singleLegMinQtyRaw: int, maxLegs: nat)
    returns (tiers: seq<ConvertTier>)
    ensures tiers == Tiers(holdings, singleLegMinQtyRaw, maxLegs)
  {
    var levels := SortedLevels(holdings);
    tiers := [];
    var prev: nat := 0;
    assert levels[0..] == levels;
    LevelsIncrease(holdings);
    for i := 0 to |levels|
      invariant i < |levels| ==> prev <= levels[i]
      invariant tiers + TiersLeft(holdings, levels, i, prev, singleLegMinQtyRaw, maxLegs)
             == Tiers(holdings, singleLegMinQtyRaw, maxLegs)
    {
      ghost var rest := TiersLeft(holdings, levels, i + 1, levels[i], singleLegMinQtyRaw, maxLegs);
      TiersLeftStep(holdings, levels, i, prev, singleLegMinQtyRaw, maxLegs);
      var level := levels[i];
      var amount := level - prev;
      assert amount == Gap(prev, level);
      prev := level;
      var members := AtLeast(holdings, level);
      if |members| == 1 && amount < singleLegMinQtyRaw {
        assert tiers + [] == tiers;
        return;
      }
      AppendAssoc(tiers, [TierOf(members, amount, maxLegs)], rest);
      tiers := tiers + [TierOf(members, amount, maxLegs)];
    }
    assert tiers + [] == tiers;
  }

  // ----- the event plan -----

  function SumAmounts(items: seq<MergeItem>): nat {
    if items == [] then 0 else items[0].amount + SumAmounts(items[1..])
  }

  function TierProceeds(t: ConvertTier): nat {
    (if |t.questionIds| > 0 then |t.questionIds| - 1 else 0) * t.amount + SumAmounts(t.postMerges)
  }

  function AllTierProceeds(tiers: seq<ConvertTier>): nat {
    if tiers == [] then 0 else TierProceeds(tiers[0]) + AllTierProceeds(tiers[1..])
  }

  method PlanEvent(merges: seq<MergeItem>, tiers: seq<ConvertTier>, nLegs: nat) returns (plan: EventPlan)
    ensures plan == EventPlan(merges, tiers, SumAmounts(merges) + AllTierProceeds(tiers), nLegs)
  {
    var proceeds := SumAmounts(merges);
    for i := 0 to |tiers|
      invariant proceeds + AllTierProceeds(tiers[i..]) == SumAmounts(merges) + AllTierProceeds(tiers)
    {
      var tier := tiers[i];
      assert tiers[i..][1..] == tiers[i + 1..];
      proceeds := proceeds + (if |tier.questionIds| > 0 then |tier.questionIds| - 1 else 0) * tier.amount;
      proceeds := proceeds + SumAmounts(tier.postMerges);
    }
    plan := EventPlan(merges, tiers, proceeds, nLegs);
  }

  /** The plan of a snapshot under a dust floor and a leg cap. */
  function PlanOf(rows: seq<Row>, nLegs: nat, floor: int, cap: nat): EventPlan {
    var merges := Merges(rows);
    var tiers := Tiers(Holdings(rows), floor, cap);
    EventPlan(merges, tiers, SumAmounts(merges) + AllTierProceeds(tiers), nLegs)
  }

  method PlanEventFromBalances(legs: seq<ConvertLeg>, pairs: seq<(nat, nat)>, singleLegMinQtyRaw: int)
    returns (plan: EventPlan)
    ensures plan == PlanOf(Zip(legs, pairs), |legs|, singleLegMinQtyRaw, MAX_LEGS_PER_CONVERT)
  {
    var merges, holdings := ClassifyEvent(legs, pairs);
    var tiers := PlanTiers(holdings, singleLegMinQtyRaw, MAX_LEGS_PER_CONVERT);
    plan := PlanEvent(merges, tiers, |legs|);
  }

  // ----- the call list -----

  function MergeCalls(items: seq<MergeItem>): seq<PlannedCall> {
    if items == [] then []
    else [PlannedCall(MergeCall(items[0].conditionId, items[0].amount), MERGE_GAS)] + MergeCalls(items[1..])
  }

  predicate NoEmptyTier(tiers: seq<ConvertTier>) {
    forall i :: 0 <= i < |tiers| ==> tiers[i].questionIds != []
  }

  function TierConvert(t: ConvertTier, nLegs: nat): PlannedCall
    requires t.questionIds != []
  {
    PlannedCall(ConvertCall(MarketId(t.questionIds[0]), Bitmap(t.questionIds), t.amount), ConvertGas(nLegs))
  }

  function TierCalls(tiers: seq<ConvertTier>, nLegs: nat): seq<PlannedCall>
    requires NoEmptyTier(tiers)
  {
    if tiers == [] then []
    else [TierConvert(tiers[0], nLegs)] + MergeCalls(tiers[0].postMerges) + TierCalls(tiers[1..], nLegs)
  }

  /** One event's calls: its merges, then each convert with its post-merges right behind it. */
  function CallsOfPlan(plan: EventPlan): seq<PlannedCall>
    requires NoEmptyTier(plan.tiers)
  {
    MergeCalls(plan.merges) + TierCalls(plan.tiers, plan.nLegs)
  }

  predicate NoEmptyTiers(plans: seq<EventPlan>) {
    forall i :: 0 <= i < |plans| ==> NoEmptyTier(plans[i].tiers)
  }

  function CallsOfPlans(plans: seq<EventPlan>): seq<PlannedCall>
    requires NoEmptyTiers(plans)
  {
    if plans == [] then [] else CallsOfPlan(plans[0]) + CallsOfPlans(plans[1..])
  }

  method BuildConvert(questionIds: seq<Bytes32>, amount: nat) returns (r: Result<Call, PlanError>)
    ensures questionIds == [] ==> r == Err(EmptyConvert)
    ensures questionIds != [] ==> r == Ok(ConvertCall(MarketId(questionIds[0]), Bitmap(questionIds), amount))
  {
    if questionIds == [] {
      return Err(EmptyConvert);
    }
    var bits := IndexSetOf(questionIds);
    return Ok(ConvertCall(MarketId(questionIds[0]), bits, amount));
  }

  method EventCalls(plan: EventPlan) returns (r: Result<seq<PlannedCall>, PlanError>)
    ensures r.Ok? <==> NoEmptyTier(plan.tiers)
    ensures r.Ok? ==> r.value == CallsOfPlan(plan)
  {
    var calls := MergeCalls(plan.merges);
    for k := 0 to |plan.tiers|
      invariant NoEmptyTier(plan.tiers[..k])
      invariant NoEmptyTier(plan.tiers) ==> CallsOfPlan(plan) == calls + TierCalls(plan.tiers[k..], plan.nLegs)
    {
      var tier := plan.tiers[k];
      var call := BuildConvert(tier.questionIds, tier.amount);
      if call.Err? {
        return Err(EmptyConvert);
      }
      assert plan.tiers[k..][1..] == plan.tiers[k + 1..];
      calls := calls + [PlannedCall(call.value, ConvertGas(plan.nLegs))];
      calls := calls + MergeCalls(tier.postMerges);
    }
    assert plan.tiers[..|plan.tiers|] == plan.tiers;
    return Ok(calls);
  }

  method PlanCalls(plans: seq<EventPlan>) returns (r: Result<seq<PlannedCall>, PlanError>)
    ensures r.Ok? <==> NoEmptyTiers(plans)
    ensures r.Ok? ==> r.value == CallsOfPlans(plans)
  {
    var calls: seq<PlannedCall> := [];
    for i := 0 to |plans|
      invariant forall j :: 0 <= j < i ==> NoEmptyTier(plans[j].tiers)
      invariant (forall j :: i <= j < |plans| ==> NoEmptyTier(plans[j].tiers)) ==>
        CallsOfPlans(plans) == calls + CallsOfPlans(plans[i..])
    {
      var eventCalls := EventCalls(plans[i]);
      if eventCalls.Err? {
        return Err(EmptyConvert);
      }
      assert plans[i..][1..] == plans[i + 1..];
      calls := calls + eventCalls.value;
    }
    return Ok(calls);
  }
}
