/**
 * Planning is resumable: at every prefix of the call list the calls so far were executable in
 * order, and a fresh plan of the resulting balances is exactly the calls that remain.
 */
module Resume {
  import opened Base
  import opened IndexSet
  import opened Ledger
  import opened Planner
  import opened PlanSteps

  // ----- lowering every holding by the first level drops the first tier -----

  /** Each level lowered by `a`. */
  function LowerLevels(levels: seq<nat>, a: nat): seq<nat> {
    if levels == [] then [] else [Gap(a, levels[0])] + LowerLevels(levels[1..], a)
  }

  ghost predicate AllAbove(levels: seq<nat>, a: nat) {
    forall i :: 0 <= i < |levels| ==> a < levels[i]
  }

  lemma {:induction false} LowerLevelsAt(levels: seq<nat>, a: nat)
    ensures |LowerLevels(levels, a)| == |levels|
    ensures forall i :: 0 <= i < |levels| ==> LowerLevels(levels, a)[i] == Gap(a, levels[i])
  {
    if levels != [] {
      LowerLevelsAt(levels[1..], a);
    }
  }

  lemma SameMembers(s: seq<nat>, t: seq<nat>)
    requires forall v :: v in s <==> v in t
    ensures s == [] <==> t == []
  {
    if s != [] {
      assert s[0] in s;
    }
    if t != [] {
      assert t[0] in t;
    }
  }

  lemma IncreasingHead(s: seq<nat>, t: seq<nat>)
    requires Increasing(s) && Increasing(t)
    requires forall v :: v in s <==> v in t
    requires s != [] && t != []
    ensures s[0] == t[0]
    ensures forall v :: v in s[1..] <==> v in t[1..]
  {
    assert s[0] in s && s[0] in t;
    assert t[0] in t && t[0] in s;
    assert forall v :: v in s <==> v == s[0] || v in s[1..];
    assert forall v :: v in t <==> v == t[0] || v in t[1..];
  }

  /** An increasing list is determined by its members. */
  lemma {:induction false} IncreasingUnique(s: seq<nat>, t: seq<nat>)
    requires Increasing(s) && Increasing(t)
    requires forall v :: v in s <==> v in t
    ensures s == t
  {
    SameMembers(s, t);
    if s != [] {
      IncreasingHead(s, t);
      IncreasingUnique(s[1..], t[1..]);
    }
  }

  lemma {:induction false} LowerHeld(holdings: seq<NoHolding>, a: nat, v: nat)
    ensures Held(Lower(holdings, a), v) <==> v > 0 && Held(holdings, v + a)
  {
    if holdings != [] {
      var h, tail := holdings[0], holdings[1..];
      LowerHeld(tail, a, v);
      HeldSplit(holdings, v + a);
      if h.remainingNo > a {
        HeldSplit(Lower(holdings, a), v);
        assert Lower(holdings, a)[1..] == Lower(tail, a);
      } else {
        assert Lower(holdings, a) == Lower(tail, a);
      }
    }
  }

  lemma LevelsAboveFirst(levels: seq<nat>)
    requires Increasing(levels) && levels != []
    ensures Increasing(levels[1..]) && AllAbove(levels[1..], levels[0])
  {
    assert forall i :: 0 <= i < |levels[1..]| ==> levels[1..][i] == levels[i + 1];
  }

  lemma LoweredMember(levels: seq<nat>, v: nat)
    requires Increasing(levels) && levels != [] && AllAbove(levels[1..], levels[0])
    ensures v in LowerLevels(levels[1..], levels[0]) <==> v > 0 && v + levels[0] in levels
  {
    var lowered := LowerLevels(levels[1..], levels[0]);
    LowerLevelsAt(levels[1..], levels[0]);
    if v in lowered {
      var i :| 0 <= i < |lowered| && lowered[i] == v;
      assert levels[1..][i] == levels[i + 1] == v + levels[0];
    }
    if v > 0 && v + levels[0] in levels {
      var j :| 0 <= j < |levels| && levels[j] == v + levels[0];
      assert levels[1..][j - 1] == levels[j] && lowered[j - 1] == v;
    }
  }

  lemma {:induction false} LowerLevelsIncrease(levels: seq<nat>, a: nat)
    requires Increasing(levels) && AllAbove(levels, a)
    ensures Increasing(LowerLevels(levels, a))
  {
    LowerLevelsAt(levels, a);
  }

  lemma LoweredLevel(holdings: seq<NoHolding>, v: nat)
    requires SortedLevels(holdings) != [] && Increasing(SortedLevels(holdings))
    requires AllAbove(SortedLevels(holdings)[1..], SortedLevels(holdings)[0])
    ensures var levels := SortedLevels(holdings);
      v in SortedLevels(Lower(holdings, levels[0])) <==> v in LowerLevels(levels[1..], levels[0])
  {
    var levels := SortedLevels(holdings);
    var a := levels[0];
    LowerHeld(holdings, a, v);
    LoweredMember(levels, v);
    LevelsAreSizes(Lower(holdings, a), v);
    LevelsAreSizes(holdings, v + a);
  }

  lemma LevelsOfLower(holdings: seq<NoHolding>)
    requires SortedLevels(holdings) != []
    ensures var levels := SortedLevels(holdings);
      AllAbove(levels[1..], levels[0])
      && SortedLevels(Lower(holdings, levels[0])) == LowerLevels(levels[1..], levels[0])
  {
    var levels := SortedLevels(holdings);
    LevelsIncrease(holdings);
    LevelsAboveFirst(levels);
    LowerLevelsIncrease(levels[1..], levels[0]);
    LevelsIncrease(Lower(holdings, levels[0]));
    var actual, lowered := SortedLevels(Lower(holdings, levels[0])), LowerLevels(levels[1..], levels[0]);
    forall v: nat ensures v in actual <==> v in lowered {
      LoweredLevel(holdings, v);
    }
    IncreasingUnique(actual, lowered);
  }

  /** A tier depends on its members' question and condition ids only. */
  ghost predicate SameIds(s: seq<NoHolding>, t: seq<NoHolding>) {
    |s| == |t| && forall i :: 0 <= i < |s| ==>
      s[i].questionId == t[i].questionId && s[i].conditionId == t[i].conditionId
  }

  lemma {:induction false} PostMergesById(s: seq<NoHolding>, t: seq<NoHolding>, amount: nat)
    requires SameIds(s, t)
    ensures PostMerges(s, amount) == PostMerges(t, amount)
  {
    if s != [] {
      PostMergesById(s[1..], t[1..], amount);
    }
  }

  lemma TierById(s: seq<NoHolding>, t: seq<NoHolding>, amount: nat, cap: nat)
    requires SameIds(s, t)
    ensures TierOf(s, amount, cap) == TierOf(t, amount, cap)
  {
    PostMergesById(Drop(s, cap), Drop(t, cap), amount);
    assert QuestionIds(Take(s, cap)) == QuestionIds(Take(t, cap));
  }

  lemma SameIdsCons(x: NoHolding, s: seq<NoHolding>, y: NoHolding, t: seq<NoHolding>)
    requires SameIds(s, t) && x.questionId == y.questionId && x.conditionId == y.conditionId
    ensures SameIds([x] + s, [y] + t)
  {
  }

  lemma TierThenById(
      s: seq<NoHolding>, t: seq<NoHolding>, amount: nat, floor: int, cap: nat, rest: seq<ConvertTier>)
    requires SameIds(s, t)
    ensures TierThen(s, amount, floor, cap, rest) == TierThen(t, amount, floor, cap, rest)
  {
    TierById(s, t, amount, cap);
  }

  lemma {:induction false} AtLeastLower(holdings: seq<NoHolding>, a: nat, level: nat)
    requires a < level
    ensures SameIds(AtLeast(Lower(holdings, a), level - a), AtLeast(holdings, level))
  {
    if holdings != [] {
      var h, tail := holdings[0], holdings[1..];
      AtLeastLower(tail, a, level);
      var s, t := AtLeast(Lower(tail, a), level - a), AtLeast(tail, level);
      if h.remainingNo > a {
        var h' := h.(remainingNo := h.remainingNo - a);
        assert Lower(holdings, a) == [h'] + Lower(tail, a);
        assert ([h'] + Lower(tail, a))[1..] == Lower(tail, a);
        if h.remainingNo >= level {
          SameIdsCons(h', s, h, t);
        } else {
          assert AtLeast(holdings, level) == t;
        }
      } else {
        assert Lower(holdings, a) == Lower(tail, a);
        assert AtLeast(holdings, level) == t;
      }
    }
  }

  lemma LowerLevelsHead(levels: seq<nat>, a: nat, prev: nat)
    requires levels != [] && a <= prev && AllAbove(levels, a)
    ensures LowerLevels(levels, a) != []
    ensures LowerLevels(levels, a)[0] == levels[0] - a && LowerLevels(levels, a)[1..] == LowerLevels(levels[1..], a)
    ensures Gap(prev - a, levels[0] - a) == Gap(prev, levels[0])
    ensures AllAbove(levels[1..], a)
  {
    assert forall i :: 0 <= i < |levels[1..]| ==> levels[1..][i] == levels[i + 1];
  }

  lemma {:induction false} TiersOverLower(
      holdings: seq<NoHolding>, levels: seq<nat>, prev: nat, a: nat, floor: int, cap: nat)
    requires a <= prev && AllAbove(levels, a)
    ensures TiersOver(Lower(holdings, a), LowerLevels(levels, a), prev - a, floor, cap)
         == TiersOver(holdings, levels, prev, floor, cap)
    decreases |levels|
  {
    if levels != [] {
      var level := levels[0];
      LowerLevelsHead(levels, a, prev);
      TiersOverLower(holdings, levels[1..], level, a, floor, cap);
      AtLeastLower(holdings, a, level);
      TierThenById(AtLeast(Lower(holdings, a), level - a), AtLeast(holdings, level), Gap(prev, level), floor, cap,
                   TiersOver(holdings, levels[1..], level, floor, cap));
    }
  }

  lemma {:induction false} AtLeastAll(holdings: seq<NoHolding>, level: nat)
    requires forall i :: 0 <= i < |holdings| ==> level <= holdings[i].remainingNo
    ensures AtLeast(holdings, level) == holdings
  {
    if holdings != [] {
      AtLeastAll(holdings[1..], level);
    }
  }

  /** The first tier covers every holding at the smallest size; the rest is the plan of what it leaves. */
  lemma TiersHead(holdings: seq<NoHolding>, floor: int, cap: nat) returns (a: nat)
    requires Tiers(holdings, floor, cap) != []
    ensures forall i :: 0 <= i < |holdings| ==> a <= holdings[i].remainingNo
    ensures Held(holdings, a)
    ensures Tiers(holdings, floor, cap)[0] == TierOf(holdings, a, cap)
    ensures Tiers(holdings, floor, cap)[1..] == Tiers(Lower(holdings, a), floor, cap)
  {
    var levels := SortedLevels(holdings);
    a := levels[0];
    LevelsAreSizes(holdings, a);
    LevelsIncrease(holdings);
    forall i | 0 <= i < |holdings| ensures a <= holdings[i].remainingNo {
      LevelsAreSizes(holdings, holdings[i].remainingNo);
    }
    AtLeastAll(holdings, a);
    LevelsOfLower(holdings);
    TiersOverLower(holdings, levels[1..], a, a, floor, cap);
  }

  lemma NoTiersLoneHolding(holdings: seq<NoHolding>, floor: int, cap: nat)
    requires Tiers(holdings, floor, cap) == []
    ensures |holdings| <= 1
  {
    if |holdings| > 0 {
      var levels := SortedLevels(holdings);
      LevelsAreSizes(holdings, holdings[0].remainingNo);
      LevelsIncrease(holdings);
      forall i | 0 <= i < |holdings| ensures levels[0] <= holdings[i].remainingNo {
        LevelsAreSizes(holdings, holdings[i].remainingNo);
      }
      AtLeastAll(holdings, levels[0]);
    }
  }

  // ----- one call -----

  lemma StepKeepsWellFormed(e: Event, s: Step)
    requires WellFormed(e) && CanStep(e, s)
    ensures WellFormed(Apply(e, s))
  {
    var rows, rows' := e.rows, Apply(e, s).rows;
    assert forall i :: 0 <= i < |rows| ==> rows'[i].leg == rows[i].leg;
    assert forall i :: 0 <= i < |rows| ==> Position(rows'[i]) == Position(rows[i]);
  }

  lemma FindConditionIs(e: Event, i: nat)
    requires WellFormed(e) && i < |e.rows| && e.rows[i].leg.conditionId.Some?
    ensures FindCondition(e.rows, e.rows[i].leg.conditionId.value) == i
  {
  }

  /** What the plan still frees after its first call, and what that call freed. */
  ghost predicate HeadDone(e: Event, e': Event, floor: int, cap: nat)
    requires cap >= 1 && Calls(e, floor, cap) != []
  {
    && WellFormed(e')
    && Calls(e', floor, cap) == Calls(e, floor, cap)[1..]
    && e'.usdc + Plan(e', floor, cap).proceeds == e.usdc + Plan(e, floor, cap).proceeds
  }

  /** The calls and proceeds of an event, from its merges and tiers. */
  lemma CallsFrom(e: Event, floor: int, cap: nat, merges: seq<MergeItem>, tiers: seq<ConvertTier>)
    requires cap >= 1 && Merges(e.rows) == merges && Tiers(Holdings(e.rows), floor, cap) == tiers
    ensures NoEmptyTier(tiers)
    ensures Calls(e, floor, cap) == MergeCalls(merges) + TierCalls(tiers, |e.rows|)
    ensures Plan(e, floor, cap).proceeds == SumAmounts(merges) + AllTierProceeds(tiers)
  {
    PlanNeverEmptyTier(Holdings(e.rows), floor, cap);
  }

  lemma MergeExec(e: Event, i: nat)
    requires WellFormed(e) && i < |e.rows| && Mergeable(e.rows[i])
    ensures var call := MergeCall(e.rows[i].leg.conditionId.value, e.rows[i].Paired());
      && Valid(e, call)
      && WellFormed(Exec(e, call))
      && Exec(e, call).rows == e.rows[i := Netted(e.rows[i])]
      && Exec(e, call).usdc == e.usdc + e.rows[i].Paired()
  {
    FindConditionIs(e, i);
    StepKeepsWellFormed(e, Merge(i, e.rows[i].Paired()));
  }

  lemma MergeCallsHead(merges: seq<MergeItem>, tail: seq<PlannedCall>)
    requires merges != []
    ensures MergeCalls(merges) + tail ==
      [PlannedCall(MergeCall(merges[0].conditionId, merges[0].amount), MERGE_GAS)] + (MergeCalls(merges[1..]) + tail)
  {
  }

  /** HeadDone from its parts, with the plan given as its first call and the rest. */
  lemma HeadFrom(e: Event, e': Event, floor: int, cap: nat, first: PlannedCall, rest: seq<PlannedCall>)
    requires cap >= 1 && WellFormed(e') && Calls(e, floor, cap) == [first] + rest && Calls(e', floor, cap) == rest
    requires e'.usdc + Plan(e', floor, cap).proceeds == e.usdc + Plan(e, floor, cap).proceeds
    ensures Calls(e, floor, cap) != [] && Calls(e, floor, cap)[0] == first
    ensures HeadDone(e, e', floor, cap)
  {
  }

  lemma HeadMerge(e: Event, floor: int, cap: nat)
    requires WellFormed(e) && cap >= 1 && Merges(e.rows) != []
    ensures Calls(e, floor, cap) != []
    ensures Valid(e, Calls(e, floor, cap)[0].call)
    ensures HeadDone(e, Exec(e, Calls(e, floor, cap)[0].call), floor, cap)
  {
    var merges, tiers := Merges(e.rows), Tiers(Holdings(e.rows), floor, cap);
    var i := FirstMerge(e.rows);
    CallsFrom(e, floor, cap, merges, tiers);
    MergeExec(e, i);
    var first := PlannedCall(MergeCall(merges[0].conditionId, merges[0].amount), MERGE_GAS);
    var e' := Exec(e, first.call);
    CallsFrom(e', floor, cap, merges[1..], tiers);
    MergeCallsHead(merges, TierCalls(tiers, |e.rows|));
    HeadFrom(e, e', floor, cap, first, MergeCalls(merges[1..]) + TierCalls(tiers, |e.rows|));
  }

  lemma FirstTier(e: Event, floor: int, cap: nat) returns (a: nat)
    requires WellFormed(e) && cap >= 1 && Merges(e.rows) == [] && Tiers(Holdings(e.rows), floor, cap) != []
    ensures a > 0 && EachHolds(e.rows, a)
    ensures Tiers(Holdings(e.rows), floor, cap)[0] == TierOf(Holdings(e.rows), a, cap)
    ensures Tiers(Holdings(e.rows), floor, cap)[1..] == Tiers(Lower(Holdings(e.rows), a), floor, cap)
    ensures |Holdings(e.rows)| > 0
  {
    var hs := Holdings(e.rows);
    a := TiersHead(hs, floor, cap);
    var j :| 0 <= j < |hs| && hs[j].remainingNo == a;
    var k := HoldingsComeFromRows(e.rows, j);
    forall i | 0 <= i < |e.rows| && e.rows[i].Leftover() > 0 ensures a <= e.rows[i].Leftover() {
      var n := RowIsHeld(e.rows, i);
      assert hs[n].remainingNo == e.rows[i].Leftover();
    }
  }

  lemma {:induction false} RowIsHeld(rows: seq<Row>, i: nat) returns (n: nat)
    requires i < |rows| && rows[i].Leftover() > 0
    ensures n < |Holdings(rows)| && Holdings(rows)[n].remainingNo == rows[i].Leftover()
  {
    if i == 0 {
      n := 0;
    } else {
      var k := RowIsHeld(rows[1..], i - 1);
      n := k + |HoldingOf(rows[0])|;
    }
  }

  /** A tier's encoded call decodes to the convert of the first `cap` NO-holding legs. */
  lemma TierDecodes(e: Event, cap: nat, a: nat)
    requires WellFormed(e) && cap >= 1 && |Holdings(e.rows)| > 0
    ensures var tier := TierOf(Holdings(e.rows), a, cap);
      && tier.questionIds != []
      && Owns(e, TierConvert(tier, |e.rows|).call)
      && StepOf(e.rows, TierConvert(tier, |e.rows|).call) == Convert(FirstMask(e.rows, cap), a)
      && CountTrue(FirstMask(e.rows, cap)) == |tier.questionIds|
  {
    TierMask(e.rows, cap);
    FirstMaskCount(e.rows, cap);
    var k := HoldingsComeFromRows(e.rows, 0);
    assert QuestionIds(Take(Holdings(e.rows), cap))[0] == e.rows[k].leg.questionId;
  }

  lemma ConvertExec(e: Event, cap: nat, a: nat)
    requires WellFormed(e) && cap >= 1 && a > 0
    requires Merges(e.rows) == [] && EachHolds(e.rows, a) && |Holdings(e.rows)| > 0
    ensures var tier := TierOf(Holdings(e.rows), a, cap);
      && tier.questionIds != []
      && var call := TierConvert(tier, |e.rows|).call;
      && Valid(e, call)
      && WellFormed(Exec(e, call))
      && Merges(Exec(e, call).rows) == tier.postMerges
      && Holdings(Exec(e, call).rows) == Lower(Holdings(e.rows), a)
      && Exec(e, call).usdc + SumAmounts(tier.postMerges) == e.usdc + TierProceeds(tier)
  {
    TierDecodes(e, cap, a);
    ConvertFirst(e.rows, cap, a);
    var step := Convert(FirstMask(e.rows, cap), a);
    FirstMaskCovers(e.rows, cap, a);
    StepKeepsWellFormed(e, step);
    assert Apply(e, step).rows == ConvertFirstRows(e.rows, cap, a);
  }

  lemma HeadConvert(e: Event, floor: int, cap: nat)
    requires WellFormed(e) && cap >= 1 && Merges(e.rows) == [] && Tiers(Holdings(e.rows), floor, cap) != []
    ensures Calls(e, floor, cap) != []
    ensures Valid(e, Calls(e, floor, cap)[0].call)
    ensures HeadDone(e, Exec(e, Calls(e, floor, cap)[0].call), floor, cap)
  {
    var tiers := Tiers(Holdings(e.rows), floor, cap);
    var a := FirstTier(e, floor, cap);
    CallsFrom(e, floor, cap, [], tiers);
    ConvertExec(e, cap, a);
    var first := TierConvert(tiers[0], |e.rows|);
    var e' := Exec(e, first.call);
    CallsFrom(e', floor, cap, tiers[0].postMerges, tiers[1..]);
    TierCallsHead(tiers, |e.rows|);
    assert AllTierProceeds(tiers) == TierProceeds(tiers[0]) + AllTierProceeds(tiers[1..]);
    HeadFrom(e, e', floor, cap, first, MergeCalls(tiers[0].postMerges) + TierCalls(tiers[1..], |e.rows|));
  }

  lemma TierCallsHead(tiers: seq<ConvertTier>, nLegs: nat)
    requires tiers != [] && NoEmptyTier(tiers)
    ensures MergeCalls([]) + TierCalls(tiers, nLegs) ==
      [TierConvert(tiers[0], nLegs)] + (MergeCalls(tiers[0].postMerges) + TierCalls(tiers[1..], nLegs))
  {
  }

  /** The first planned call is executable, and re-planning after it gives exactly the rest. */
  lemma HeadStep(e: Event, floor: int, cap: nat)
    requires WellFormed(e) && cap >= 1 && Calls(e, floor, cap) != []
    ensures Valid(e, Calls(e, floor, cap)[0].call)
    ensures HeadDone(e, Exec(e, Calls(e, floor, cap)[0].call), floor, cap)
  {
    if Merges(e.rows) != [] {
      HeadMerge(e, floor, cap);
    } else {
      HeadConvert(e, floor, cap);
    }
  }

  // ----- runs -----

  predicate AllValid(e: Event, calls: seq<PlannedCall>)
    decreases |calls|
  {
    calls == [] || (Valid(e, calls[0].call) && AllValid(Exec(e, calls[0].call), calls[1..]))
  }

  function ExecAll(e: Event, calls: seq<PlannedCall>): Event
    requires AllValid(e, calls)
    decreases |calls|
  {
    if calls == [] then e else ExecAll(Exec(e, calls[0].call), calls[1..])
  }

  /** `e'` is planned the calls of `e` from the `k`-th on, and freed plus planned is the same. */
  ghost predicate Replans(e: Event, e': Event, floor: int, cap: nat, k: nat)
    requires cap >= 1
  {
    && WellFormed(e') && k <= |Calls(e, floor, cap)|
    && Calls(e', floor, cap) == Calls(e, floor, cap)[k..]
    && e'.usdc + Plan(e', floor, cap).proceeds == e.usdc + Plan(e, floor, cap).proceeds
  }

  lemma ReplansLater(e: Event, e1: Event, e': Event, floor: int, cap: nat, k: nat)
    requires cap >= 1 && k > 0 && Calls(e, floor, cap) != []
    requires HeadDone(e, e1, floor, cap) && Replans(e1, e', floor, cap, k - 1)
    ensures Replans(e, e', floor, cap, k)
  {
    DropFirst(Calls(e, floor, cap), k);
  }

  lemma RunFirst(e: Event, calls: seq<PlannedCall>, k: nat)
    requires 0 < k <= |calls| && Valid(e, calls[0].call)
    ensures AllValid(e, calls[..k]) <==> AllValid(Exec(e, calls[0].call), calls[1..][..k - 1])
    ensures AllValid(e, calls[..k]) ==>
      ExecAll(e, calls[..k]) == ExecAll(Exec(e, calls[0].call), calls[1..][..k - 1])
  {
    assert calls[..k][0] == calls[0] && calls[..k][1..] == calls[1..][..k - 1];
  }

  /**
   * Any prefix of the plan executes in order, re-planning from where it stops gives exactly the
   * remaining calls, and freed plus still-planned collateral is the same at every prefix.
   */
  lemma {:induction false} PrefixThenReplan(e: Event, floor: int, cap: nat, k: nat)
    requires WellFormed(e) && cap >= 1 && k <= |Calls(e, floor, cap)|
    ensures AllValid(e, Calls(e, floor, cap)[..k])
    ensures Replans(e, ExecAll(e, Calls(e, floor, cap)[..k]), floor, cap, k)
    decreases k
  {
    var calls := Calls(e, floor, cap);
    if k == 0 {
      NoneTaken(calls);
    } else {
      HeadStep(e, floor, cap);
      var e1 := Exec(e, calls[0].call);
      PrefixThenReplan(e1, floor, cap, k - 1);
      RunFirst(e, calls, k);
      ReplansLater(e, e1, ExecAll(e1, calls[1..][..k - 1]), floor, cap, k);
    }
  }

  lemma NoCallsNoProceeds(e: Event, floor: int, cap: nat)
    requires cap >= 1 && Calls(e, floor, cap) == []
    ensures Merges(e.rows) == [] && Tiers(Holdings(e.rows), floor, cap) == []
    ensures Plan(e, floor, cap).proceeds == 0
  {
  }

  /** The whole plan runs, frees exactly its stated proceeds, and leaves nothing to plan. */
  lemma PlanIsFixpoint(e: Event, floor: int, cap: nat)
    requires WellFormed(e) && cap >= 1
    ensures AllValid(e, Calls(e, floor, cap))
    ensures var e' := ExecAll(e, Calls(e, floor, cap));
      && e'.usdc - e.usdc == Plan(e, floor, cap).proceeds
      && Merges(e'.rows) == []
      && Tiers(Holdings(e'.rows), floor, cap) == []
  {
    var calls := Calls(e, floor, cap);
    assert calls[..|calls|] == calls;
    PrefixThenReplan(e, floor, cap, |calls|);
    NoCallsNoProceeds(ExecAll(e, calls), floor, cap);
  }

  lemma {:induction false} CallsKeepWorth(e: Event, calls: seq<PlannedCall>, w: nat)
    requires AllValid(e, calls) && w < |e.rows|
    ensures Worth(ExecAll(e, calls), w) == Worth(e, w)
    decreases |calls|
  {
    if calls != [] {
      WorthConserved(e, StepOf(e.rows, calls[0].call), w);
      CallsKeepWorth(Exec(e, calls[0].call), calls[1..], w);
    }
  }

  /** Whatever leg wins, the wallet is worth the same after any prefix of the plan. */
  lemma PrefixKeepsWorth(e: Event, floor: int, cap: nat, k: nat, w: nat)
    requires WellFormed(e) && cap >= 1 && k <= |Calls(e, floor, cap)| && w < |e.rows|
    ensures AllValid(e, Calls(e, floor, cap)[..k])
    ensures Worth(ExecAll(e, Calls(e, floor, cap)[..k]), w) == Worth(e, w)
  {
    PrefixThenReplan(e, floor, cap, k);
    CallsKeepWorth(e, Calls(e, floor, cap)[..k], w);
  }
}
