/**
 * Legs whose YES token id is unknown: their YES balance reads as 0. A plan made from such a read
 * still executes on the real balances and frees exactly its stated proceeds, but it can fall short
 * of what the wallet could free; how short, and when, is exact.
 */
module HiddenYes {
  import opened Base
  import opened Ledger
  import opened Planner
  import opened PlanSteps
  import opened Resume
  import opened Optimality
  import opened Layout
  import opened Wallet

  /** The leg as a balance read shows it. */
  function Shown(r: Row): Row {
    if r.leg.yesTokenId.Some? then r else Row(r.leg, r.no, 0)
  }

  function ShownRows(rows: seq<Row>): (out: seq<Row>)
    ensures |out| == |rows| && forall i :: 0 <= i < |rows| ==> out[i] == Shown(rows[i])
  {
    if rows == [] then [] else [Shown(rows[0])] + ShownRows(rows[1..])
  }

  function ShownEvent(e: Event): Event {
    Event(e.market, ShownRows(e.rows), e.usdc)
  }

  /** What a balance read gives the planner is the event as shown. */
  lemma ReadShowsRows(rows: seq<Row>, read: Pairs)
    requires SeenAll(LegsOf(rows), PairsOf(rows), read)
    ensures Zip(LegsOf(rows), read) == ShownRows(rows)
  {
    forall i | 0 <= i < |rows| ensures Zip(LegsOf(rows), read)[i] == ShownRows(rows)[i] {
      assert read[i] == Seen(rows[i].leg, (rows[i].no, rows[i].yes));
    }
  }

  // ----- executing a plan on more YES than it was made for -----

  /** `e` is `s` with `d` more collateral and possibly more YES. */
  ghost predicate HoldsAll(e: Event, s: Event, d: int) {
    && e.market == s.market && |e.rows| == |s.rows| && e.usdc == s.usdc + d
    && forall i :: 0 <= i < |e.rows| ==>
         e.rows[i].leg == s.rows[i].leg && e.rows[i].no == s.rows[i].no && s.rows[i].yes <= e.rows[i].yes
  }

  lemma SameStep(e: Event, s: Event, d: int, call: Call)
    requires HoldsAll(e, s, d)
    ensures StepOf(e.rows, call) == StepOf(s.rows, call) && (Owns(e, call) <==> Owns(s, call))
  {
    match call
    case MergeCall(cid, _) =>
      var i, j := FindCondition(e.rows, cid), FindCondition(s.rows, cid);
      assert i < |e.rows| ==> s.rows[i].leg.conditionId == Some(cid);
      assert j < |s.rows| ==> e.rows[j].leg.conditionId == Some(cid);
    case ConvertCall(_, bits, _) =>
      assert Mask(e.rows, bits) == Mask(s.rows, bits);
  }

  lemma RunsOnMore(e: Event, s: Event, d: int, call: Call)
    requires HoldsAll(e, s, d) && Valid(s, call)
    ensures Valid(e, call) && HoldsAll(Exec(e, call), Exec(s, call), d)
  {
    SameStep(e, s, d, call);
    var step := StepOf(s.rows, call);
    if step.Convert? {
      forall i | 0 <= i < |e.rows| && step.legs[i] ensures step.amount <= e.rows[i].no {
        assert step.amount <= s.rows[i].no;
      }
    }
  }

  lemma {:induction false} RunInBoth(e: Event, s: Event, d: int, calls: seq<PlannedCall>)
    requires HoldsAll(e, s, d) && AllValid(s, calls)
    ensures AllValid(e, calls) && HoldsAll(ExecAll(e, calls), ExecAll(s, calls), d)
    decreases |calls|
  {
    if calls != [] {
      RunsOnMore(e, s, d, calls[0].call);
      RunInBoth(Exec(e, calls[0].call), Exec(s, calls[0].call), d, calls[1..]);
    }
  }

  lemma ShownIsWellFormed(e: Event)
    requires WellFormed(e)
    ensures WellFormed(ShownEvent(e)) && HoldsAll(e, ShownEvent(e), 0)
  {
    var rows := ShownRows(e.rows);
    assert forall i :: 0 <= i < |rows| ==> rows[i].leg == e.rows[i].leg && Position(rows[i]) == Position(e.rows[i]);
  }

  /** A plan made with YES hidden executes on the real balances and frees exactly what it states. */
  lemma HiddenPlanRuns(e: Event, floor: int, cap: nat)
    requires WellFormed(e) && cap >= 1
    ensures AllValid(e, Calls(ShownEvent(e), floor, cap))
    ensures ExecAll(e, Calls(ShownEvent(e), floor, cap)).usdc - e.usdc == Plan(ShownEvent(e), floor, cap).proceeds
  {
    ShownIsWellFormed(e);
    PlanIsFixpoint(ShownEvent(e), floor, cap);
    RunInBoth(e, ShownEvent(e), 0, Calls(ShownEvent(e), floor, cap));
  }

  // ----- a whole wallet -----

  function ShownWallet(w: seq<Event>): seq<Event> {
    if w == [] then [] else [ShownEvent(w[0])] + ShownWallet(w[1..])
  }

  /** The calls planned for a wallet from what a balance read shows of it. */
  function ShownCalls(w: seq<Event>, floor: int, cap: nat): seq<PlannedCall>
    requires cap >= 1
  {
    WalletCalls(ShownWallet(w), floor, cap)
  }

  lemma {:induction false} ShownWalletAt(w: seq<Event>)
    ensures |ShownWallet(w)| == |w|
    ensures forall i :: 0 <= i < |w| ==> ShownWallet(w)[i] == ShownEvent(w[i])
  {
    if w != [] {
      ShownWalletAt(w[1..]);
    }
  }

  /** Every YES token id of the event is known. */
  predicate YesKnown(legs: seq<ConvertLeg>) {
    forall i :: 0 <= i < |legs| ==> legs[i].yesTokenId.Some?
  }

  lemma KnownIsShown(e: Event)
    requires YesKnown(LegsOf(e.rows))
    ensures ShownEvent(e) == e
  {
    forall i | 0 <= i < |e.rows| ensures ShownRows(e.rows)[i] == e.rows[i] {
      assert LegsOf(e.rows)[i].yesTokenId.Some?;
    }
    assert ShownRows(e.rows) == e.rows;
  }

  lemma {:induction false} KnownWalletIsShown(w: seq<Event>)
    requires forall i :: 0 <= i < |w| ==> YesKnown(LegsOf(w[i].rows))
    ensures ShownWallet(w) == w
  {
    if w != [] {
      KnownIsShown(w[0]);
      assert forall i :: 0 <= i < |w[1..]| ==> w[1..][i] == w[i + 1];
      KnownWalletIsShown(w[1..]);
    }
  }

  lemma ShownApart(e: Event, f: Event)
    requires Apart(e, f)
    ensures Apart(ShownEvent(e), ShownEvent(f))
  {
    forall cid | HasCondition(ShownEvent(e), cid) ensures !HasCondition(ShownEvent(f), cid) {
      ShownHas(e, cid);
      ShownHas(f, cid);
    }
  }

  lemma ShownHas(e: Event, cid: Bytes32)
    ensures HasCondition(ShownEvent(e), cid) <==> HasCondition(e, cid)
  {
    var s := ShownEvent(e);
    if HasCondition(s, cid) {
      var i :| 0 <= i < |s.rows| && s.rows[i].leg.conditionId == Some(cid);
      assert e.rows[i].leg.conditionId == Some(cid);
    }
    if HasCondition(e, cid) {
      var i :| 0 <= i < |e.rows| && e.rows[i].leg.conditionId == Some(cid);
      assert s.rows[i].leg.conditionId == Some(cid);
    }
  }

  /** Event by event, the first wallet holds all the second does, possibly with more YES. */
  ghost predicate HoldsAllW(w: seq<Event>, s: seq<Event>) {
    |w| == |s| && forall i :: 0 <= i < |w| ==> HoldsAll(w[i], s[i], 0)
  }

  lemma ShownWalletOk(w: seq<Event>)
    requires WalletOk(w)
    ensures WalletOk(ShownWallet(w)) && HoldsAllW(w, ShownWallet(w))
  {
    var s := ShownWallet(w);
    ShownWalletAt(w);
    forall i | 0 <= i < |w| ensures WellFormed(s[i]) && HoldsAll(w[i], s[i], 0) {
      ShownIsWellFormed(w[i]);
    }
    forall i, j | 0 <= i < j < |w| ensures Apart(s[i], s[j]) {
      ShownApart(w[i], w[j]);
    }
  }

  lemma {:induction false} ValidAt(w: seq<Event>, call: Call, i: nat)
    requires i < |w| && Valid(w[i], call)
    ensures ValidW(w, call)
  {
    if i > 0 {
      ValidAt(w[1..], call, i - 1);
    }
  }

  lemma OnlyOwner(s: seq<Event>, call: Call, i: nat, j: nat)
    requires WalletOk(s) && i < |s| && j < |s| && i != j && Owns(s[i], call)
    ensures !Owns(s[j], call)
  {
    if i < j {
      ApartNotOwned(s[i], s[j], call);
    } else if Owns(s[j], call) {
      ApartNotOwned(s[j], s[i], call);
    }
  }

  lemma ExecOnMore(w: seq<Event>, s: seq<Event>, call: Call)
    requires HoldsAllW(w, s) && WalletOk(s) && ValidW(s, call)
    ensures ValidW(w, call) && HoldsAllW(ExecW(w, call), ExecW(s, call))
  {
    var k := ValidOwner(s, call);
    RunsOnMore(w[k], s[k], 0, call);
    ValidAt(w, call, k);
    forall i | 0 <= i < |w| ensures HoldsAll(ExecIn(w[i], call), ExecIn(s[i], call), 0) {
      if i != k {
        OnlyOwner(s, call, k, i);
        SameStep(w[i], s[i], 0, call);
      }
    }
  }

  lemma {:induction false} RunOnMore(w: seq<Event>, s: seq<Event>, calls: seq<PlannedCall>)
    requires HoldsAllW(w, s) && WalletOk(s) && AllValidW(s, calls)
    ensures AllValidW(w, calls) && HoldsAllW(ExecAllW(w, calls), ExecAllW(s, calls))
    decreases |calls|
  {
    if calls != [] {
      ExecOnMore(w, s, calls[0].call);
      ExecKeepsWallet(s, calls[0].call);
      RunOnMore(ExecW(w, calls[0].call), ExecW(s, calls[0].call), calls[1..]);
    }
  }

  lemma {:induction false} SameUsdc(w: seq<Event>, s: seq<Event>)
    requires HoldsAllW(w, s)
    ensures SumUsdc(w) == SumUsdc(s)
  {
    if w != [] {
      assert forall i :: 0 <= i < |w[1..]| ==> w[1..][i] == w[i + 1] && s[1..][i] == s[i + 1];
      SameUsdc(w[1..], s[1..]);
    }
  }

  /** Any prefix of what is planned from a read executes on the wallet itself. */
  lemma ShownPlanRuns(w: seq<Event>, floor: int, cap: nat, k: nat)
    requires WalletOk(w) && cap >= 1 && k <= |ShownCalls(w, floor, cap)|
    ensures AllValidW(w, ShownCalls(w, floor, cap)[..k])
  {
    ShownWalletOk(w);
    WalletPrefix(ShownWallet(w), floor, cap, k);
    RunOnMore(w, ShownWallet(w), ShownCalls(w, floor, cap)[..k]);
  }

  /** All of it frees exactly the proceeds it was planned with. */
  lemma ShownPlanFrees(w: seq<Event>, floor: int, cap: nat)
    requires WalletOk(w) && cap >= 1
    ensures SumUsdc(ExecAllW(w, ShownCalls(w, floor, cap))) - SumUsdc(w) == SumProceeds(ShownWallet(w), floor, cap)
  {
    var s, calls := ShownWallet(w), ShownCalls(w, floor, cap);
    ShownWalletOk(w);
    assert calls[..|calls|] == calls;
    WalletPrefix(s, floor, cap, |calls|);
    RunOnMore(w, s, calls);
    SameUsdc(w, s);
    SameUsdc(ExecAllW(w, calls), ExecAllW(s, calls));
    NothingLeftNoProceeds(ExecAllW(s, calls), floor, cap);
  }

  // ----- what hiding YES costs -----

  lemma {:induction false} ShownTotals(rows: seq<Row>)
    ensures SumNo(ShownRows(rows)) == SumNo(rows) && TopNet(ShownRows(rows)) >= TopNet(rows)
  {
    if rows != [] {
      ShownTotals(rows[1..]);
      assert ShownRows(rows)[1..] == ShownRows(rows[1..]);
    }
  }

  /**
   * The plan falls short by at least what the top net NO is overstated, and by exactly that if and
   * only if the event as shown is recoverable.
   */
  lemma HiddenYesCost(e: Event, floor: int, cap: nat)
    requires WellFormed(e) && cap >= 1
    ensures var short := Freeable(e.rows) - Plan(ShownEvent(e), floor, cap).proceeds;
      var overstated := TopNet(ShownRows(e.rows)) - TopNet(e.rows);
      && short >= overstated >= 0
      && (short == overstated <==> Recoverable(ShownRows(e.rows), cap))
  {
    ShownIsWellFormed(e);
    ShownTotals(e.rows);
    ProceedsMeetBound(ShownEvent(e), floor, cap);
  }

  /** A plan made with YES hidden is optimal exactly when nothing else is and the top net NO is right. */
  lemma HiddenPlanIsOptimalIff(e: Event, floor: int, cap: nat)
    requires WellFormed(e) && cap >= 1
    ensures NothingBeats(e, Plan(ShownEvent(e), floor, cap).proceeds) <==>
      Recoverable(ShownRows(e.rows), cap) && TopNet(ShownRows(e.rows)) == TopNet(e.rows)
  {
    ShownIsWellFormed(e);
    ShownTotals(e.rows);
    ProceedsMeetBound(ShownEvent(e), floor, cap);
    forall steps | CanRun(e, steps) ensures RunSteps(e, steps).usdc - e.usdc <= Freeable(e.rows) {
      NothingFreesMore(e, steps);
    }
    var best := BoundIsAttained(e);
    assert CanRun(e, best);
  }

  // ----- planning again -----

  /** How much the calls convert, run in order. */
  function Converted(e: Event, calls: seq<PlannedCall>): nat
    requires AllValid(e, calls)
    decreases |calls|
  {
    if calls == [] then 0
    else Burn(StepOf(e.rows, calls[0].call)) + Converted(Exec(e, calls[0].call), calls[1..])
  }

  lemma {:induction false} RunStake(e: Event, calls: seq<PlannedCall>)
    requires AllValid(e, calls)
    ensures Stake(ExecAll(e, calls)) == Stake(e) - Converted(e, calls)
    decreases |calls|
  {
    if calls != [] {
      StepStake(e, StepOf(e.rows, calls[0].call));
      RunStake(Exec(e, calls[0].call), calls[1..]);
    }
  }

  /** What a plan made from a read frees, when the event as shown is recoverable. */
  lemma ShownProceeds(e: Event, floor: int, cap: nat)
    requires WellFormed(e) && cap >= 1 && Recoverable(ShownRows(e.rows), cap)
    ensures Plan(ShownEvent(e), floor, cap).proceeds == SumNo(e.rows) - TopNet(ShownRows(e.rows))
  {
    ShownIsWellFormed(e);
    ShownTotals(e.rows);
    ProceedsMeetBound(ShownEvent(e), floor, cap);
  }

  /**
   * After any executable calls, planning again from a read makes up for all that the first plan
   * promised if and only if the top net NO, as shown, has fallen by what was converted.
   */
  lemma HiddenResumeIff(e: Event, floor: int, cap: nat, calls: seq<PlannedCall>)
    requires WellFormed(e) && cap >= 1 && AllValid(e, calls) && WellFormed(ExecAll(e, calls))
    requires Recoverable(ShownRows(e.rows), cap) && Recoverable(ShownRows(ExecAll(e, calls).rows), cap)
    ensures var e' := ExecAll(e, calls);
      e'.usdc + Plan(ShownEvent(e'), floor, cap).proceeds == e.usdc + Plan(ShownEvent(e), floor, cap).proceeds
      <==> TopNet(ShownRows(e'.rows)) == TopNet(ShownRows(e.rows)) - Converted(e, calls)
  {
    RunStake(e, calls);
    ShownProceeds(e, floor, cap);
    ShownProceeds(ExecAll(e, calls), floor, cap);
  }

  lemma OneRow(rows: seq<Row>)
    requires |rows| == 1
    ensures SumNo(rows) == rows[0].no && TopNet(rows) == Max(0, rows[0].Net())
  {
    assert rows[1..] == [];
  }

  /** One leg holding equal NO and YES: hidden, the pair is planned as nothing to free. */
  lemma HiddenPairIsLost(questionId: Bytes32, conditionId: Bytes32, noToken: int, amount: nat, floor: int)
    requires amount > 0
    ensures var leg := ConvertLeg(questionId, Some(conditionId), None, noToken);
      var e := Event(MarketId(questionId), [Row(leg, amount, amount)], 0);
      && WellFormed(e) && Freeable(e.rows) == amount
      && Plan(ShownEvent(e), floor, MAX_LEGS_PER_CONVERT).proceeds == 0
  {
    var leg := ConvertLeg(questionId, Some(conditionId), None, noToken);
    var row := Row(leg, amount, amount);
    var e := Event(MarketId(questionId), [row], 0);
    var shown := ShownRows(e.rows);
    assert |shown| == 1 && shown[0] == Shown(row);
    OneRow(e.rows);
    OneRow(shown);
    AllConditionsRecoverable(shown, MAX_LEGS_PER_CONVERT);
    HiddenYesCost(e, floor, MAX_LEGS_PER_CONVERT);
  }
}
