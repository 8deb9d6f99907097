/**
 * The claim that every planned call is also valid on its own against the balances the plan was
 * made from. It holds for merges and converts; a post-merge spends YES that only the convert
 * before it mints, so it holds exactly when the leg already had that YES.
 */
module Snapshot {
  import opened Base
  import opened IndexSet
  import opened Ledger
  import opened Planner
  import opened PlanSteps
  import opened Resume

  ghost predicate EachValid(e: Event, calls: seq<PlannedCall>) {
    forall k :: 0 <= k < |calls| ==> Valid(e, calls[k].call)
  }

  ghost predicate YesHeld(e: Event, item: MergeItem) {
    exists i :: 0 <= i < |e.rows| && e.rows[i].leg.conditionId == Some(item.conditionId)
                && item.amount <= e.rows[i].yes
  }

  ghost predicate NoHeld(e: Event, item: MergeItem) {
    exists i :: 0 <= i < |e.rows| && e.rows[i].leg.conditionId == Some(item.conditionId)
                && item.amount <= e.rows[i].no
  }

  /** Each listed merge is for a leg whose YES balance already covers it. */
  ghost predicate YesCovers(e: Event, items: seq<MergeItem>) {
    forall k :: 0 <= k < |items| ==> YesHeld(e, items[k])
  }

  /** The post-merges of every tier need no YES beyond what the snapshot holds. */
  ghost predicate PostMergesCovered(e: Event, tiers: seq<ConvertTier>) {
    forall t :: 0 <= t < |tiers| ==> YesCovers(e, tiers[t].postMerges)
  }

  lemma EachValidConcat(e: Event, a: seq<PlannedCall>, b: seq<PlannedCall>)
    ensures EachValid(e, a + b) <==> EachValid(e, a) && EachValid(e, b)
  {
    assert forall k :: 0 <= k < |a| ==> a[k] == (a + b)[k];
    assert forall k :: 0 <= k < |b| ==> b[k] == (a + b)[|a| + k];
  }

  lemma EachValidCons(e: Event, c: PlannedCall, rest: seq<PlannedCall>)
    ensures EachValid(e, [c] + rest) <==> Valid(e, c.call) && EachValid(e, rest)
  {
    EachValidConcat(e, [c], rest);
    assert EachValid(e, [c]) <==> Valid(e, [c][0].call);
  }

  /** A merge of a leg that holds the NO is valid exactly when the leg holds the YES. */
  lemma MergeValidIff(e: Event, item: MergeItem)
    requires WellFormed(e) && NoHeld(e, item)
    ensures Valid(e, MergeCall(item.conditionId, item.amount)) <==> YesHeld(e, item)
  {
    var i :| 0 <= i < |e.rows| && e.rows[i].leg.conditionId == Some(item.conditionId)
             && item.amount <= e.rows[i].no;
    FindConditionIs(e, i);
    if YesHeld(e, item) {
      var j :| 0 <= j < |e.rows| && e.rows[j].leg.conditionId == Some(item.conditionId)
               && item.amount <= e.rows[j].yes;
      FindConditionIs(e, j);
    }
  }

  lemma {:induction false} MergesValidIff(e: Event, items: seq<MergeItem>)
    requires WellFormed(e) && forall k :: 0 <= k < |items| ==> NoHeld(e, items[k])
    ensures EachValid(e, MergeCalls(items)) <==> YesCovers(e, items)
  {
    if items != [] {
      MergeValidIff(e, items[0]);
      assert forall k :: 0 <= k < |items[1..]| ==> items[1..][k] == items[k + 1];
      MergesValidIff(e, items[1..]);
      YesCoversSplit(e, items);
      EachValidCons(e, PlannedCall(MergeCall(items[0].conditionId, items[0].amount), MERGE_GAS),
                    MergeCalls(items[1..]));
    }
  }

  lemma YesCoversSplit(e: Event, items: seq<MergeItem>)
    requires items != []
    ensures YesCovers(e, items) <==> YesHeld(e, items[0]) && YesCovers(e, items[1..])
  {
    assert forall k :: 0 <= k < |items[1..]| ==> items[1..][k] == items[k + 1];
  }

  // ----- merges of the snapshot -----

  lemma {:induction false} MergesAreHeld(e: Event, rows: seq<Row>, from: nat)
    requires from <= |e.rows| && rows == e.rows[from..]
    ensures forall k :: 0 <= k < |Merges(rows)| ==> NoHeld(e, Merges(rows)[k]) && YesHeld(e, Merges(rows)[k])
    decreases |rows|
  {
    if rows != [] {
      assert rows[1..] == e.rows[from + 1..] && rows[0] == e.rows[from];
      MergesAreHeld(e, rows[1..], from + 1);
      if Mergeable(rows[0]) {
        assert Merges(rows)[1..] == Merges(rows[1..]);
        assert e.rows[from].leg.conditionId == Some(Merges(rows)[0].conditionId);
      } else {
        assert Merges(rows) == Merges(rows[1..]);
      }
    }
  }

  // ----- tiers of the snapshot -----

  /** Whether a holding is a leg of the event that holds at least `a` NO. */
  ghost predicate LegHolds(e: Event, h: NoHolding, a: nat) {
    exists i :: 0 <= i < |e.rows| && a <= e.rows[i].no
                && h.questionId == e.rows[i].leg.questionId && h.conditionId == e.rows[i].leg.conditionId
  }

  ghost predicate HeldBy(e: Event, members: seq<NoHolding>, a: nat) {
    forall j :: 0 <= j < |members| ==> LegHolds(e, members[j], a)
  }

  lemma {:induction false} AtLeastMembers(holdings: seq<NoHolding>, level: nat, j: nat) returns (k: nat)
    requires j < |AtLeast(holdings, level)|
    ensures k < |holdings| && holdings[k] == AtLeast(holdings, level)[j] && holdings[k].remainingNo >= level
  {
    var n := if holdings[0].remainingNo >= level then 1 else 0;
    if j < n {
      k := 0;
    } else {
      var m := AtLeastMembers(holdings[1..], level, j - n);
      k := m + 1;
    }
  }

  lemma LevelMembersHeld(e: Event, level: nat, a: nat)
    requires a <= level
    ensures HeldBy(e, AtLeast(Holdings(e.rows), level), a)
  {
    var members := AtLeast(Holdings(e.rows), level);
    forall j | 0 <= j < |members| ensures LegHolds(e, members[j], a) {
      var k := AtLeastMembers(Holdings(e.rows), level, j);
      var i := HoldingsComeFromRows(e.rows, k);
      assert e.rows[i].Leftover() <= e.rows[i].no;
    }
  }

  lemma {:induction false} PostMergesHeld(e: Event, members: seq<NoHolding>, a: nat)
    requires HeldBy(e, members, a)
    ensures forall k :: 0 <= k < |PostMerges(members, a)| ==> NoHeld(e, PostMerges(members, a)[k])
  {
    if members != [] {
      assert forall j :: 0 <= j < |members[1..]| ==> members[1..][j] == members[j + 1];
      PostMergesHeld(e, members[1..], a);
      if members[0].conditionId.Some? {
        assert LegHolds(e, members[0], a);
        var first := MergeItem(members[0].conditionId.value, a);
        assert NoHeld(e, first);
        assert PostMerges(members, a) == [first] + PostMerges(members[1..], a);
      } else {
        assert PostMerges(members, a) == PostMerges(members[1..], a);
      }
    }
  }

  lemma {:induction false} CountSome(mask: seq<bool>, i: nat)
    requires i < |mask| && mask[i]
    ensures CountTrue(mask) > 0
  {
    if i > 0 {
      CountSome(mask[1..], i - 1);
    }
  }

  lemma NamedBy(chosen: seq<NoHolding>, position: nat) returns (j: nat)
    requires Bit(Bitmap(QuestionIds(chosen)), position)
    ensures j < |chosen| && chosen[j].questionId[31] == position
  {
    var ids := QuestionIds(chosen);
    BitmapBit(ids, position);
    j :| j < |ids| && ids[j][31] == position;
  }

  lemma HolderOf(e: Event, h: NoHolding, a: nat) returns (k: nat)
    requires LegHolds(e, h, a)
    ensures k < |e.rows| && a <= e.rows[k].no && h.questionId == e.rows[k].leg.questionId
  {
    k :| k < |e.rows| && a <= e.rows[k].no && h.questionId == e.rows[k].leg.questionId;
  }

  lemma MaskedLegHolds(e: Event, chosen: seq<NoHolding>, a: nat, i: nat)
    requires WellFormed(e) && HeldBy(e, chosen, a) && i < |e.rows|
    requires Bit(Bitmap(QuestionIds(chosen)), Position(e.rows[i]))
    ensures a <= e.rows[i].no
  {
    var j := NamedBy(chosen, Position(e.rows[i]));
    var k := HolderOf(e, chosen[j], a);
    assert Position(e.rows[k]) == Position(e.rows[i]);
  }

  lemma ConvertMaskValid(e: Event, chosen: seq<NoHolding>, a: nat)
    requires WellFormed(e) && HeldBy(e, chosen, a) && chosen != []
    ensures CanStep(e, Convert(Mask(e.rows, Bitmap(QuestionIds(chosen))), a))
    ensures MarketId(chosen[0].questionId) == e.market
  {
    var ids := QuestionIds(chosen);
    var mask := Mask(e.rows, Bitmap(ids));
    forall i | 0 <= i < |e.rows| && mask[i] ensures a <= e.rows[i].no {
      MaskedLegHolds(e, chosen, a, i);
    }
    assert LegHolds(e, chosen[0], a);
    var f :| 0 <= f < |e.rows| && chosen[0].questionId == e.rows[f].leg.questionId;
    BitmapBit(ids, Position(e.rows[f]));
    assert ids[0][31] == Position(e.rows[f]);
    CountSome(mask, f);
  }

  lemma TierConvertValid(e: Event, members: seq<NoHolding>, a: nat, cap: nat)
    requires WellFormed(e) && HeldBy(e, members, a) && cap >= 1 && members != []
    ensures TierOf(members, a, cap).questionIds != []
    ensures Valid(e, TierConvert(TierOf(members, a, cap), |e.rows|).call)
  {
    var chosen := Take(members, cap);
    assert forall j :: 0 <= j < |chosen| ==> chosen[j] == members[j];
    ConvertMaskValid(e, chosen, a);
  }

  lemma HeldByDrop(e: Event, members: seq<NoHolding>, a: nat, cap: nat)
    requires HeldBy(e, members, a)
    ensures HeldBy(e, Drop(members, cap), a)
  {
    if cap <= |members| {
      assert forall j :: 0 <= j < |members[cap..]| ==> members[cap..][j] == members[cap + j];
    }
  }

  lemma TierValidIff(e: Event, members: seq<NoHolding>, a: nat, cap: nat)
    requires WellFormed(e) && HeldBy(e, members, a) && cap >= 1 && members != []
    ensures TierOf(members, a, cap).questionIds != []
    ensures var t := TierOf(members, a, cap);
      EachValid(e, [TierConvert(t, |e.rows|)] + MergeCalls(t.postMerges)) <==> YesCovers(e, t.postMerges)
  {
    var t := TierOf(members, a, cap);
    TierConvertValid(e, members, a, cap);
    HeldByDrop(e, members, a, cap);
    PostMergesHeld(e, Drop(members, cap), a);
    MergesValidIff(e, t.postMerges);
    EachValidCons(e, TierConvert(t, |e.rows|), MergeCalls(t.postMerges));
  }

  lemma CoveredSplit(e: Event, tiers: seq<ConvertTier>)
    requires tiers != []
    ensures PostMergesCovered(e, tiers) <==>
      YesCovers(e, tiers[0].postMerges) && PostMergesCovered(e, tiers[1..])
  {
    assert forall t :: 0 <= t < |tiers[1..]| ==> tiers[1..][t] == tiers[t + 1];
  }

  lemma {:induction false} TiersValidIff(e: Event, levels: seq<nat>, prev: nat, floor: int, cap: nat)
    requires WellFormed(e) && cap >= 1
    requires forall i :: 0 <= i < |levels| ==> Held(Holdings(e.rows), levels[i])
    ensures var tiers := TiersOver(Holdings(e.rows), levels, prev, floor, cap);
      NoEmptyTier(tiers) && (EachValid(e, TierCalls(tiers, |e.rows|)) <==> PostMergesCovered(e, tiers))
    decreases |levels|
  {
    var hs := Holdings(e.rows);
    var tiers := TiersOver(hs, levels, prev, floor, cap);
    TiersAreNonEmpty(hs, levels, prev, floor, cap);
    if tiers != [] {
      var level, a := levels[0], Gap(prev, levels[0]);
      var members := AtLeast(hs, level);
      var rest := TiersOver(hs, levels[1..], level, floor, cap);
      HeldTier(hs, level, a, cap);
      LevelMembersHeld(e, level, a);
      TierValidIff(e, members, a, cap);
      TiersValidIff(e, levels[1..], level, floor, cap);
      assert tiers[0] == TierOf(members, a, cap) && tiers[1..] == rest;
      CoveredSplit(e, tiers);
      EachValidConcat(e, [TierConvert(tiers[0], |e.rows|)] + MergeCalls(tiers[0].postMerges),
                      TierCalls(rest, |e.rows|));
    }
  }

  /** Every call is valid against the snapshot exactly when the YES of every post-merge is held. */
  lemma PlanValidIff(e: Event, floor: int, cap: nat)
    requires WellFormed(e) && cap >= 1
    ensures EachValid(e, Calls(e, floor, cap)) <==>
      PostMergesCovered(e, Tiers(Holdings(e.rows), floor, cap))
  {
    var merges, tiers := Merges(e.rows), Tiers(Holdings(e.rows), floor, cap);
    var levels := SortedLevels(Holdings(e.rows));
    CallsFrom(e, floor, cap, merges, tiers);
    assert e.rows[0..] == e.rows;
    MergesAreHeld(e, e.rows, 0);
    MergesValidIff(e, merges);
    forall i | 0 <= i < |levels| ensures Held(Holdings(e.rows), levels[i]) {
      LevelsAreSizes(Holdings(e.rows), levels[i]);
    }
    TiersValidIff(e, levels, 0, floor, cap);
    EachValidConcat(e, MergeCalls(merges), TierCalls(tiers, |e.rows|));
  }

  // ----- the condition over the balances -----

  /** How many legs before the `i`-th have at least `v` NO left over. */
  function Ahead(rows: seq<Row>, i: nat, v: nat): nat
    requires i <= |rows|
  {
    if i == 0 then 0 else Ahead(rows, i - 1, v) + if rows[i - 1].Leftover() >= v then 1 else 0
  }

  /** The largest leftover below `v`, 0 when there is none. */
  function NextBelow(rows: seq<Row>, v: nat): nat {
    if rows == [] then 0
    else
      var rest := NextBelow(rows[1..], v);
      if rest < rows[0].Leftover() < v then rows[0].Leftover() else rest
  }

  ghost predicate IsSize(rows: seq<Row>, v: nat) {
    exists i :: 0 <= i < |rows| && rows[i].Leftover() == v
  }

  /** Each mergeable leg that leaves `v` or more, behind `cap` others that do, holds `amount` YES. */
  ghost predicate LevelCovered(rows: seq<Row>, cap: nat, v: nat, amount: nat) {
    forall i: nat :: i < |rows| && rows[i].leg.conditionId.Some? && v <= rows[i].Leftover() && cap <= Ahead(rows, i, v)
      ==> amount <= rows[i].yes
  }

  /**
   * Every leg with a condition id holds, for each leftover size within its own that `cap` earlier
   * legs reach as well, YES to cover that size less the next smaller one.
   */
  ghost predicate MintsCovered(rows: seq<Row>, cap: nat) {
    forall v: nat :: v > 0 && IsSize(rows, v) ==> LevelCovered(rows, cap, v, Gap(NextBelow(rows, v), v))
  }

  predicate CoveredFrom(rows: seq<Row>, cap: nat, v: nat, amount: nat) {
    rows == []
    || ((rows[0].leg.conditionId.Some? && v <= rows[0].Leftover() && cap == 0 ==> amount <= rows[0].yes)
        && CoveredFrom(rows[1..], if v <= rows[0].Leftover() && cap > 0 then cap - 1 else cap, v, amount))
  }

  lemma {:induction false} AheadShift(rows: seq<Row>, i: nat, v: nat)
    requires i < |rows|
    ensures Ahead(rows, i + 1, v) == (if rows[0].Leftover() >= v then 1 else 0) + Ahead(rows[1..], i, v)
  {
    if i > 0 {
      AheadShift(rows, i - 1, v);
      assert rows[1..][i - 1] == rows[i];
    }
  }

  lemma {:induction false} CoveredFromIsLevel(rows: seq<Row>, cap: nat, v: nat, amount: nat)
    ensures CoveredFrom(rows, cap, v, amount) <==> LevelCovered(rows, cap, v, amount)
  {
    if rows != [] {
      var tail := rows[1..];
      var rest := if v <= rows[0].Leftover() && cap > 0 then cap - 1 else cap;
      CoveredFromIsLevel(tail, rest, v, amount);
      forall i: nat | i < |tail| ensures tail[i] == rows[i + 1]
        ensures cap <= Ahead(rows, i + 1, v) <==> rest <= Ahead(tail, i, v)
      {
        AheadShift(rows, i, v);
      }
      if LevelCovered(rows, cap, v, amount) {
        assert cap <= Ahead(rows, 0, v) <==> cap == 0;
        forall i: nat |
          i < |tail| && tail[i].leg.conditionId.Some? && v <= tail[i].Leftover() && rest <= Ahead(tail, i, v)
          ensures amount <= tail[i].yes
        {
          assert cap <= Ahead(rows, i + 1, v);
        }
      }
      if LevelCovered(tail, rest, v, amount)
         && (rows[0].leg.conditionId.Some? && v <= rows[0].Leftover() && cap == 0 ==> amount <= rows[0].yes)
      {
        forall i: nat |
          i < |rows| && rows[i].leg.conditionId.Some? && v <= rows[i].Leftover() && cap <= Ahead(rows, i, v)
          ensures amount <= rows[i].yes
        {
          if i > 0 {
            assert rows[i] == tail[i - 1] && rest <= Ahead(tail, i - 1, v);
          }
        }
      }
    }
  }

  lemma HeldAtLeg(e: Event, i: nat, amount: nat)
    requires WellFormed(e) && i < |e.rows| && e.rows[i].leg.conditionId.Some?
    ensures YesHeld(e, MergeItem(e.rows[i].leg.conditionId.value, amount)) <==> amount <= e.rows[i].yes
  {
    var item := MergeItem(e.rows[i].leg.conditionId.value, amount);
    if YesHeld(e, item) {
      var j :| 0 <= j < |e.rows| && e.rows[j].leg.conditionId == Some(item.conditionId)
               && item.amount <= e.rows[j].yes;
      FindConditionIs(e, i);
      FindConditionIs(e, j);
    }
  }

  lemma MembersHead(rows: seq<Row>, v: nat)
    requires rows != [] && v > 0
    ensures AtLeast(Holdings(rows), v) ==
      (if v <= rows[0].Leftover() then HoldingOf(rows[0]) else []) + AtLeast(Holdings(rows[1..]), v)
  {
    var tail := Holdings(rows[1..]);
    if rows[0].Leftover() > 0 {
      assert Holdings(rows)[1..] == tail;
    } else {
      assert Holdings(rows) == tail;
    }
  }

  /** The post-merges of one level are covered exactly when its legs past the cap hold the YES. */
  lemma {:induction false} LevelCovers(e: Event, rows: seq<Row>, from: nat, cap: nat, v: nat, amount: nat)
    requires WellFormed(e) && v > 0 && from <= |e.rows| && rows == e.rows[from..]
    ensures YesCovers(e, PostMerges(Drop(AtLeast(Holdings(rows), v), cap), amount))
       <==> CoveredFrom(rows, cap, v, amount)
    decreases |rows|
  {
    if rows != [] {
      var members, rest := AtLeast(Holdings(rows), v), AtLeast(Holdings(rows[1..]), v);
      MembersHead(rows, v);
      if v <= rows[0].Leftover() {
        var h := HoldingOf(rows[0])[0];
        assert members == [h] + rest;
        if cap > 0 {
          TakeHead(h, rest, cap);
          LevelCovers(e, rows[1..], from + 1, cap - 1, v, amount);
        } else {
          LevelCovers(e, rows[1..], from + 1, 0, v, amount);
          assert members[0..] == members && rest[0..] == rest && members[1..] == rest;
          if h.conditionId.Some? {
            HeldAtLeg(e, from, amount);
            var items := PostMerges(members, amount);
            assert items[0] == MergeItem(h.conditionId.value, amount) && items[1..] == PostMerges(rest, amount);
            YesCoversSplit(e, items);
          } else {
            assert PostMerges(members, amount) == PostMerges(rest, amount);
          }
        }
      } else {
        assert members == rest;
        LevelCovers(e, rows[1..], from + 1, cap, v, amount);
      }
    }
  }

  lemma LevelIff(e: Event, cap: nat, v: nat, amount: nat)
    requires WellFormed(e) && v > 0
    ensures YesCovers(e, PostMerges(Drop(AtLeast(Holdings(e.rows), v), cap), amount))
       <==> LevelCovered(e.rows, cap, v, amount)
  {
    assert e.rows[0..] == e.rows;
    LevelCovers(e, e.rows, 0, cap, v, amount);
    CoveredFromIsLevel(e.rows, cap, v, amount);
  }

  // ----- all levels -----

  ghost predicate LevelsCovered(rows: seq<Row>, cap: nat, levels: seq<nat>, prev: nat) {
    levels == []
    || (LevelCovered(rows, cap, levels[0], Gap(prev, levels[0]))
        && LevelsCovered(rows, cap, levels[1..], levels[0]))
  }

  lemma {:induction false} AtLeastFewer(holdings: seq<NoHolding>, low: nat, high: nat)
    requires low <= high
    ensures |AtLeast(holdings, high)| <= |AtLeast(holdings, low)|
  {
    if holdings != [] {
      AtLeastFewer(holdings[1..], low, high);
    }
  }

  /** Where at most one leg is left no call is truncated, so a dust tier that ends the plan hides nothing. */
  lemma {:induction false} LoneLevelsCovered(e: Event, cap: nat, levels: seq<nat>, prev: nat, low: nat)
    requires WellFormed(e) && cap >= 1 && low > 0 && |AtLeast(Holdings(e.rows), low)| <= 1
    requires forall t :: 0 <= t < |levels| ==> low <= levels[t]
    ensures LevelsCovered(e.rows, cap, levels, prev)
    decreases |levels|
  {
    if levels != [] {
      var members := AtLeast(Holdings(e.rows), levels[0]);
      AtLeastFewer(Holdings(e.rows), low, levels[0]);
      assert Drop(members, cap) == [];
      LevelIff(e, cap, levels[0], Gap(prev, levels[0]));
      assert forall t :: 0 <= t < |levels[1..]| ==> levels[1..][t] == levels[t + 1];
      LoneLevelsCovered(e, cap, levels[1..], levels[0], low);
    }
  }

  lemma {:induction false} TiersCoveredIff(e: Event, cap: nat, levels: seq<nat>, prev: nat, floor: int)
    requires WellFormed(e) && cap >= 1 && Increasing(levels)
    requires forall t :: 0 <= t < |levels| ==> levels[t] > 0
    ensures PostMergesCovered(e, TiersOver(Holdings(e.rows), levels, prev, floor, cap))
       <==> LevelsCovered(e.rows, cap, levels, prev)
    decreases |levels|
  {
    if levels != [] {
      var v, a := levels[0], Gap(prev, levels[0]);
      var members := AtLeast(Holdings(e.rows), v);
      var tiers := TiersOver(Holdings(e.rows), levels, prev, floor, cap);
      if |members| == 1 && a < floor {
        LoneLevelsCovered(e, cap, levels, prev, v);
        assert tiers == [];
      } else {
        assert forall t :: 0 <= t < |levels[1..]| ==> levels[1..][t] == levels[t + 1];
        TiersCoveredIff(e, cap, levels[1..], v, floor);
        LevelIff(e, cap, v, a);
        assert tiers[0] == TierOf(members, a, cap);
        CoveredSplit(e, tiers);
      }
    }
  }

  lemma {:induction false} NextBelowIs(rows: seq<Row>, v: nat)
    requires v > 0
    ensures NextBelow(rows, v) < v
    ensures NextBelow(rows, v) > 0 ==> IsSize(rows, NextBelow(rows, v))
    ensures forall i :: 0 <= i < |rows| && rows[i].Leftover() < v ==> rows[i].Leftover() <= NextBelow(rows, v)
  {
    if rows != [] {
      NextBelowIs(rows[1..], v);
      var rest := NextBelow(rows[1..], v);
      if NextBelow(rows, v) == rest && rest > 0 {
        var i :| 0 <= i < |rows[1..]| && rows[1..][i].Leftover() == rest;
        assert rows[i + 1].Leftover() == rest;
      } else if NextBelow(rows, v) > 0 {
        assert rows[0].Leftover() == NextBelow(rows, v);
      }
      forall i | 0 <= i < |rows| && rows[i].Leftover() < v ensures rows[i].Leftover() <= NextBelow(rows, v) {
        assert i > 0 ==> rows[i] == rows[1..][i - 1];
      }
    }
  }

  lemma SizeIsLevel(rows: seq<Row>, v: nat)
    ensures v in SortedLevels(Holdings(rows)) <==> v > 0 && IsSize(rows, v)
  {
    var hs := Holdings(rows);
    LevelsAreSizes(hs, v);
    if Held(hs, v) {
      var j :| 0 <= j < |hs| && hs[j].remainingNo == v;
      var i := HoldingsComeFromRows(rows, j);
      assert rows[i].Leftover() == v;
    }
    if v > 0 && IsSize(rows, v) {
      var i: nat :| i < |rows| && rows[i].Leftover() == v;
      var j := RowIsHeld(rows, i);
    }
  }

  /** The level below the `t`-th is the next smaller leftover. */
  lemma PreviousLevel(rows: seq<Row>, t: nat)
    requires t < |SortedLevels(Holdings(rows))|
    ensures var levels := SortedLevels(Holdings(rows));
      levels[t] > 0 && NextBelow(rows, levels[t]) == if t == 0 then 0 else levels[t - 1]
  {
    var levels := SortedLevels(Holdings(rows));
    var v := levels[t];
    LevelsIncrease(Holdings(rows));
    assert v in levels;
    SizeIsLevel(rows, v);
    NextBelowIs(rows, v);
    var below := NextBelow(rows, v);
    SizeIsLevel(rows, below);
    if below > 0 {
      var s: nat :| s < |levels| && levels[s] == below;
      assert s < t;
      assert s < t - 1 ==> levels[s] < levels[t - 1];
    }
    if t > 0 {
      assert levels[t - 1] in levels;
      SizeIsLevel(rows, levels[t - 1]);
      var i :| 0 <= i < |rows| && rows[i].Leftover() == levels[t - 1];
    }
  }

  /** The `t`-th level is covered, for its gap to the one below. */
  ghost predicate LevelAt(rows: seq<Row>, cap: nat, levels: seq<nat>, prev: nat, t: nat)
    requires t < |levels|
  {
    LevelCovered(rows, cap, levels[t], Gap(if t == 0 then prev else levels[t - 1], levels[t]))
  }

  lemma {:induction false} LevelsCoveredAt(rows: seq<Row>, cap: nat, levels: seq<nat>, prev: nat)
    ensures LevelsCovered(rows, cap, levels, prev) <==>
      forall t: nat :: t < |levels| ==> LevelAt(rows, cap, levels, prev, t)
    decreases |levels|
  {
    if levels != [] {
      var rest, first := levels[1..], levels[0];
      LevelsCoveredAt(rows, cap, rest, first);
      assert LevelAt(rows, cap, levels, prev, 0) <==> LevelCovered(rows, cap, first, Gap(prev, first));
      forall t: nat | t < |rest|
        ensures LevelAt(rows, cap, rest, first, t) <==> LevelAt(rows, cap, levels, prev, t + 1)
      {
        assert rest[t] == levels[t + 1];
      }
      if LevelsCovered(rows, cap, levels, prev) {
        forall t: nat | t < |levels| ensures LevelAt(rows, cap, levels, prev, t) {
          assert t > 0 ==> LevelAt(rows, cap, rest, first, t - 1);
        }
      }
    }
  }

  lemma LevelIsMint(rows: seq<Row>, cap: nat, t: nat)
    requires t < |SortedLevels(Holdings(rows))|
    ensures var levels := SortedLevels(Holdings(rows));
      && levels[t] > 0 && IsSize(rows, levels[t])
      && (LevelAt(rows, cap, levels, 0, t)
          <==> LevelCovered(rows, cap, levels[t], Gap(NextBelow(rows, levels[t]), levels[t])))
  {
    var levels := SortedLevels(Holdings(rows));
    PreviousLevel(rows, t);
    assert levels[t] in levels;
    SizeIsLevel(rows, levels[t]);
  }

  lemma LevelsAreMints(rows: seq<Row>, cap: nat)
    ensures LevelsCovered(rows, cap, SortedLevels(Holdings(rows)), 0) <==> MintsCovered(rows, cap)
  {
    var levels := SortedLevels(Holdings(rows));
    LevelsCoveredAt(rows, cap, levels, 0);
    if MintsCovered(rows, cap) {
      forall t: nat | t < |levels| ensures LevelAt(rows, cap, levels, 0, t) {
        LevelIsMint(rows, cap, t);
      }
    }
    if LevelsCovered(rows, cap, levels, 0) {
      forall v: nat | v > 0 && IsSize(rows, v) ensures LevelCovered(rows, cap, v, Gap(NextBelow(rows, v), v)) {
        SizeIsLevel(rows, v);
        var t: nat :| t < |levels| && levels[t] == v;
        assert LevelAt(rows, cap, levels, 0, t);
        LevelIsMint(rows, cap, t);
      }
    }
  }

  /** Every call is valid against the snapshot exactly when the YES already held covers what converts would mint. */
  lemma SnapshotValidIff(e: Event, floor: int, cap: nat)
    requires WellFormed(e) && cap >= 1
    ensures EachValid(e, Calls(e, floor, cap)) <==> MintsCovered(e.rows, cap)
  {
    var levels := SortedLevels(Holdings(e.rows));
    PlanValidIff(e, floor, cap);
    LevelsIncrease(Holdings(e.rows));
    forall t | 0 <= t < |levels| ensures levels[t] > 0 {
      assert levels[t] in levels;
      SizeIsLevel(e.rows, levels[t]);
    }
    TiersCoveredIff(e, cap, levels, 0, floor);
    LevelsAreMints(e.rows, cap);
  }

  // ----- wallets without YES, and events without a mergeable tail -----

  lemma {:induction false} HoldingAhead(rows: seq<Row>, i: nat)
    requires i < |rows| && rows[i].Leftover() > 0
    ensures Ahead(rows, i, 1) < |Holdings(rows)|
    ensures Holdings(rows)[Ahead(rows, i, 1)].conditionId == rows[i].leg.conditionId
  {
    if i > 0 {
      AheadShift(rows, i - 1, 1);
      HoldingAhead(rows[1..], i - 1);
    }
  }

  lemma {:induction false} HoldingLeg(rows: seq<Row>, j: nat) returns (i: nat)
    requires j < |Holdings(rows)|
    ensures i < |rows| && rows[i].Leftover() > 0 && Ahead(rows, i, 1) == j
    ensures Holdings(rows)[j].conditionId == rows[i].leg.conditionId
  {
    var n := |HoldingOf(rows[0])|;
    if j < n {
      i := 0;
    } else {
      var k := HoldingLeg(rows[1..], j - n);
      i := k + 1;
      AheadShift(rows, k, 1);
    }
  }

  lemma {:induction false} AheadFalls(rows: seq<Row>, i: nat, low: nat, high: nat)
    requires i <= |rows| && low <= high
    ensures Ahead(rows, i, high) <= Ahead(rows, i, low)
  {
    if i > 0 {
      AheadFalls(rows, i - 1, low, high);
    }
  }

  /** No holding past the cap can be merged. */
  ghost predicate UnmergeableTail(holdings: seq<NoHolding>, cap: nat) {
    forall j :: cap <= j < |holdings| ==> holdings[j].conditionId.None?
  }

  /** With no mergeable holding past the cap there are no post-merges, and the claim holds whatever YES is held. */
  lemma UnmergeableTailIsValid(e: Event, floor: int, cap: nat)
    requires WellFormed(e) && cap >= 1 && UnmergeableTail(Holdings(e.rows), cap)
    ensures EachValid(e, Calls(e, floor, cap))
  {
    forall v: nat | v > 0 && IsSize(e.rows, v)
      ensures LevelCovered(e.rows, cap, v, Gap(NextBelow(e.rows, v), v))
    {
      forall i: nat | i < |e.rows| && e.rows[i].leg.conditionId.Some? && v <= e.rows[i].Leftover()
        ensures Ahead(e.rows, i, v) < cap
      {
        HoldingAhead(e.rows, i);
        AheadFalls(e.rows, i, 1, v);
      }
    }
    SnapshotValidIff(e, floor, cap);
  }

  /** With no more holdings than the cap the claim holds. */
  lemma NarrowEventIsValid(e: Event, floor: int, cap: nat)
    requires WellFormed(e) && cap >= 1 && |Holdings(e.rows)| <= cap
    ensures EachValid(e, Calls(e, floor, cap))
  {
    UnmergeableTailIsValid(e, floor, cap);
  }

  /** The smallest leftover size is reached by every holding. */
  lemma SmallestSize(rows: seq<Row>, i: nat) returns (v: nat)
    requires i < |rows| && rows[i].Leftover() > 0
    ensures v > 0 && IsSize(rows, v) && v <= rows[i].Leftover()
    ensures forall k :: 0 <= k < |rows| && rows[k].Leftover() > 0 ==> v <= rows[k].Leftover()
  {
    var levels := SortedLevels(Holdings(rows));
    LevelsIncrease(Holdings(rows));
    SizeIsLevel(rows, rows[i].Leftover());
    assert levels != [];
    v := levels[0];
    assert v in levels;
    SizeIsLevel(rows, v);
    forall k | 0 <= k < |rows| && rows[k].Leftover() > 0 ensures v <= rows[k].Leftover() {
      SizeIsLevel(rows, rows[k].Leftover());
    }
  }

  lemma {:induction false} AheadSame(rows: seq<Row>, i: nat, v: nat)
    requires i <= |rows| && v > 0
    requires forall k :: 0 <= k < |rows| && rows[k].Leftover() > 0 ==> v <= rows[k].Leftover()
    ensures Ahead(rows, i, v) == Ahead(rows, i, 1)
  {
    if i > 0 {
      AheadSame(rows, i - 1, v);
    }
  }

  /** A wallet without YES: the claim holds exactly when no holding past the cap can be merged. */
  lemma NoYesValidIff(e: Event, floor: int, cap: nat)
    requires WellFormed(e) && cap >= 1
    requires forall i :: 0 <= i < |e.rows| ==> e.rows[i].yes == 0
    ensures EachValid(e, Calls(e, floor, cap)) <==> UnmergeableTail(Holdings(e.rows), cap)
  {
    SnapshotValidIff(e, floor, cap);
    if UnmergeableTail(Holdings(e.rows), cap) {
      UnmergeableTailIsValid(e, floor, cap);
    } else {
      var j: nat :| cap <= j < |Holdings(e.rows)| && Holdings(e.rows)[j].conditionId.Some?;
      MintsNeeded(e.rows, cap, j);
    }
  }

  /** A mergeable holding past the cap needs YES. */
  lemma MintsNeeded(rows: seq<Row>, cap: nat, j: nat)
    requires cap <= j < |Holdings(rows)| && Holdings(rows)[j].conditionId.Some?
    requires forall i :: 0 <= i < |rows| ==> rows[i].yes == 0
    ensures !MintsCovered(rows, cap)
  {
    var i := HoldingLeg(rows, j);
    var v := SmallestSize(rows, i);
    AheadSame(rows, i, v);
    NextBelowIs(rows, v);
    assert rows[i].yes < Gap(NextBelow(rows, v), v);
    assert !LevelCovered(rows, cap, v, Gap(NextBelow(rows, v), v));
  }
}
