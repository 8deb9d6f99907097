/**
 * What a call weighs, read off the wallet: a merge is flat, a convert grows with the legs of the event
 * whose market it names. The call list carries exactly these weights, event after event.
 */
module Weights {
  import opened Base
  import opened Ledger
  import opened Planner
  import opened PlanSteps
  import opened Wallet
  import opened HiddenYes

  /** How many legs the event with this market has; 0 when the wallet has no such event. */
  function LegsOfMarket(w: seq<Event>, market: Bytes32): nat {
    if w == [] then 0 else if w[0].market == market then |w[0].rows| else LegsOfMarket(w[1..], market)
  }

  function Weight(w: seq<Event>, call: Call): nat {
    match call
    case MergeCall(_, _) => 400_000
    case ConvertCall(market, _, _) => 700_000 + 175_000 * LegsOfMarket(w, market)
  }

  /** Every call is weighed as the wallet says. */
  ghost predicate Weighed(w: seq<Event>, calls: seq<PlannedCall>) {
    forall n :: 0 <= n < |calls| ==> calls[n].gas == Weight(w, calls[n].call)
  }

  // ----- one event -----

  /** The call addresses the event, and weighs what it weighs in a wallet of this event alone. */
  predicate WellSent(e: Event, c: PlannedCall) {
    Owns(e, c.call) && c.gas == Weight([e], c.call)
  }

  ghost predicate AllWellSent(e: Event, calls: seq<PlannedCall>) {
    forall n :: 0 <= n < |calls| ==> WellSent(e, calls[n])
  }

  lemma WellSentConcat(e: Event, a: seq<PlannedCall>, b: seq<PlannedCall>)
    requires AllWellSent(e, a) && AllWellSent(e, b)
    ensures AllWellSent(e, a + b)
  {
  }

  /** Every merge names a condition of the event. */
  ghost predicate OwnMerges(e: Event, items: seq<MergeItem>) {
    forall i :: 0 <= i < |items| ==> FindCondition(e.rows, items[i].conditionId) < |e.rows|
  }

  lemma {:induction false} MergeCallsSent(e: Event, items: seq<MergeItem>)
    requires OwnMerges(e, items)
    ensures AllWellSent(e, MergeCalls(items))
  {
    if items != [] {
      assert forall i :: 0 <= i < |items[1..]| ==> items[1..][i] == items[i + 1];
      MergeCallsSent(e, items[1..]);
      WellSentConcat(e, [PlannedCall(MergeCall(items[0].conditionId, items[0].amount), MERGE_GAS)],
                     MergeCalls(items[1..]));
    }
  }

  /** A holding of the event: its market, and its condition if it has one. */
  predicate OwnHolding(e: Event, h: NoHolding) {
    && MarketId(h.questionId) == e.market
    && (h.conditionId.Some? ==> FindCondition(e.rows, h.conditionId.value) < |e.rows|)
  }

  ghost predicate OwnHoldings(e: Event, holdings: seq<NoHolding>) {
    forall i :: 0 <= i < |holdings| ==> OwnHolding(e, holdings[i])
  }

  lemma ConditionIsOwn(e: Event, i: nat)
    requires i < |e.rows| && e.rows[i].leg.conditionId.Some?
    ensures FindCondition(e.rows, e.rows[i].leg.conditionId.value) < |e.rows|
  {
  }

  lemma HoldingsAreOwn(e: Event)
    requires WellFormed(e)
    ensures OwnHoldings(e, Holdings(e.rows))
  {
    forall j: nat | j < |Holdings(e.rows)| ensures OwnHolding(e, Holdings(e.rows)[j]) {
      var i := HoldingsComeFromRows(e.rows, j);
      if e.rows[i].leg.conditionId.Some? {
        ConditionIsOwn(e, i);
      }
    }
  }

  lemma {:induction false} MergeFromRow(rows: seq<Row>, j: nat) returns (i: nat)
    requires j < |Merges(rows)|
    ensures i < |rows| && rows[i].leg.conditionId == Some(Merges(rows)[j].conditionId)
  {
    var n := |MergeOf(rows[0])|;
    if j < n {
      i := 0;
    } else {
      var k := MergeFromRow(rows[1..], j - n);
      i := k + 1;
    }
  }

  lemma MergesAreOwn(e: Event)
    ensures OwnMerges(e, Merges(e.rows))
  {
    forall j: nat | j < |Merges(e.rows)|
      ensures FindCondition(e.rows, Merges(e.rows)[j].conditionId) < |e.rows|
    {
      var i := MergeFromRow(e.rows, j);
      ConditionIsOwn(e, i);
    }
  }

  lemma {:induction false} AtLeastIsOwn(e: Event, holdings: seq<NoHolding>, level: nat)
    requires OwnHoldings(e, holdings)
    ensures OwnHoldings(e, AtLeast(holdings, level))
  {
    if holdings != [] {
      assert forall i :: 0 <= i < |holdings[1..]| ==> holdings[1..][i] == holdings[i + 1];
      AtLeastIsOwn(e, holdings[1..], level);
    }
  }

  lemma {:induction false} PostMergesAreOwn(e: Event, holdings: seq<NoHolding>, amount: nat)
    requires OwnHoldings(e, holdings)
    ensures OwnMerges(e, PostMerges(holdings, amount))
  {
    if holdings != [] {
      assert forall i :: 0 <= i < |holdings[1..]| ==> holdings[1..][i] == holdings[i + 1];
      PostMergesAreOwn(e, holdings[1..], amount);
      assert OwnHolding(e, holdings[0]);
    }
  }

  ghost predicate OwnTier(e: Event, t: ConvertTier) {
    && (t.questionIds != [] ==> MarketId(t.questionIds[0]) == e.market)
    && OwnMerges(e, t.postMerges)
  }

  lemma TierIsOwn(e: Event, members: seq<NoHolding>, amount: nat, cap: nat)
    requires OwnHoldings(e, members)
    ensures OwnTier(e, TierOf(members, amount, cap))
  {
    PostMergesAreOwn(e, Drop(members, cap), amount);
    if Take(members, cap) != [] {
      assert OwnHolding(e, members[0]);
    }
  }

  lemma {:induction false} TiersAreOwn(
      e: Event, holdings: seq<NoHolding>, levels: seq<nat>, prev: nat, floor: int, cap: nat)
    requires OwnHoldings(e, holdings)
    ensures forall i :: 0 <= i < |TiersOver(holdings, levels, prev, floor, cap)| ==>
      OwnTier(e, TiersOver(holdings, levels, prev, floor, cap)[i])
    decreases |levels|
  {
    if levels != [] {
      AtLeastIsOwn(e, holdings, levels[0]);
      TierIsOwn(e, AtLeast(holdings, levels[0]), Gap(prev, levels[0]), cap);
      TiersAreOwn(e, holdings, levels[1..], levels[0], floor, cap);
    }
  }

  lemma {:induction false} TierCallsSent(e: Event, tiers: seq<ConvertTier>)
    requires NoEmptyTier(tiers) && forall i :: 0 <= i < |tiers| ==> OwnTier(e, tiers[i])
    ensures AllWellSent(e, TierCalls(tiers, |e.rows|))
  {
    if tiers != [] {
      var t, rest := tiers[0], tiers[1..];
      assert forall i :: 0 <= i < |rest| ==> rest[i] == tiers[i + 1];
      MergeCallsSent(e, t.postMerges);
      TierCallsSent(e, rest);
      assert WellSent(e, TierConvert(t, |e.rows|));
      WellSentConcat(e, [TierConvert(t, |e.rows|)], MergeCalls(t.postMerges));
      WellSentConcat(e, [TierConvert(t, |e.rows|)] + MergeCalls(t.postMerges), TierCalls(rest, |e.rows|));
    }
  }

  lemma EventCallsSent(e: Event, floor: int, cap: nat)
    requires WellFormed(e) && cap >= 1
    ensures AllWellSent(e, Calls(e, floor, cap))
  {
    var holdings := Holdings(e.rows);
    PlanNeverEmptyTier(holdings, floor, cap);
    MergesAreOwn(e);
    HoldingsAreOwn(e);
    MergeCallsSent(e, Merges(e.rows));
    TiersAreOwn(e, holdings, SortedLevels(holdings), 0, floor, cap);
    TierCallsSent(e, Tiers(holdings, floor, cap));
    WellSentConcat(e, MergeCalls(Merges(e.rows)), TierCalls(Tiers(holdings, floor, cap), |e.rows|));
  }

  // ----- the wallet -----

  /** The parts one behind the other. */
  function Joined<T>(parts: seq<seq<T>>): seq<T> {
    if parts == [] then [] else parts[0] + Joined(parts[1..])
  }

  /** The part the `n`-th entry comes from. */
  function PartAt<T>(parts: seq<seq<T>>, n: nat): (i: nat)
    requires n < |Joined(parts)|
    ensures i < |parts|
  {
    if n < |parts[0]| then 0 else 1 + PartAt(parts[1..], n - |parts[0]|)
  }

  lemma {:induction false} EntryOfPart<T>(parts: seq<seq<T>>, n: nat) returns (k: nat)
    requires n < |Joined(parts)|
    ensures k < |parts[PartAt(parts, n)]| && Joined(parts)[n] == parts[PartAt(parts, n)][k]
  {
    if n < |parts[0]| {
      k := n;
    } else {
      k := EntryOfPart(parts[1..], n - |parts[0]|);
    }
  }

  lemma {:induction false} PartsInOrder<T>(parts: seq<seq<T>>, m: nat, n: nat)
    requires m <= n < |Joined(parts)|
    ensures PartAt(parts, m) <= PartAt(parts, n)
  {
    if m >= |parts[0]| {
      PartsInOrder(parts[1..], m - |parts[0]|, n - |parts[0]|);
    }
  }

  /** Each event's calls. */
  function CallParts(w: seq<Event>, floor: int, cap: nat): (parts: seq<seq<PlannedCall>>)
    requires cap >= 1
    ensures |parts| == |w| && forall i :: 0 <= i < |w| ==> parts[i] == Calls(w[i], floor, cap)
  {
    if w == [] then [] else [Calls(w[0], floor, cap)] + CallParts(w[1..], floor, cap)
  }

  lemma {:induction false} PartsJoin(w: seq<Event>, floor: int, cap: nat)
    requires cap >= 1
    ensures Joined(CallParts(w, floor, cap)) == WalletCalls(w, floor, cap)
  {
    if w != [] {
      PartsJoin(w[1..], floor, cap);
      assert CallParts(w, floor, cap)[1..] == CallParts(w[1..], floor, cap);
    }
  }

  /** Which event the `n`-th call was planned for. */
  function EventAt(w: seq<Event>, floor: int, cap: nat, n: nat): (i: nat)
    requires cap >= 1 && n < |WalletCalls(w, floor, cap)|
    ensures i < |w|
  {
    PartsJoin(w, floor, cap);
    PartAt(CallParts(w, floor, cap), n)
  }

  /** Every call of the wallet addresses the event it was planned for, and is weighed for it. */
  lemma CallIsSent(w: seq<Event>, floor: int, cap: nat, n: nat)
    requires WalletOk(w) && cap >= 1 && n < |WalletCalls(w, floor, cap)|
    ensures WellSent(w[EventAt(w, floor, cap, n)], WalletCalls(w, floor, cap)[n])
  {
    PartsJoin(w, floor, cap);
    var i := EventAt(w, floor, cap, n);
    var k := EntryOfPart(CallParts(w, floor, cap), n);
    assert WellFormed(w[i]);
    EventCallsSent(w[i], floor, cap);
  }

  lemma {:induction false} LegsAt(w: seq<Event>, i: nat)
    requires i < |w| && forall j :: 0 <= j < i ==> w[j].market != w[i].market
    ensures LegsOfMarket(w, w[i].market) == |w[i].rows|
  {
    if i > 0 {
      assert forall j :: 0 <= j < i - 1 ==> w[1..][j] == w[j + 1];
      LegsAt(w[1..], i - 1);
    }
  }

  lemma OtherMarkets(w: seq<Event>, i: nat)
    requires WalletOk(w) && i < |w|
    ensures forall j :: 0 <= j < i ==> w[j].market != w[i].market
  {
    forall j | 0 <= j < i ensures w[j].market != w[i].market {
      assert Apart(w[j], w[i]);
    }
  }

  /** A call weighs in the wallet what it weighs for the event it addresses. */
  lemma WeightOfOwner(w: seq<Event>, i: nat, call: Call)
    requires WalletOk(w) && i < |w| && Owns(w[i], call)
    ensures Weight(w, call) == Weight([w[i]], call)
  {
    OtherMarkets(w, i);
    LegsAt(w, i);
  }

  /** Every call of the list weighs 400,000 if it is a merge, and grows with its event's legs if it is a convert. */
  lemma CallsAreWeighed(w: seq<Event>, floor: int, cap: nat)
    requires WalletOk(w) && cap >= 1
    ensures Weighed(w, WalletCalls(w, floor, cap))
  {
    forall n: nat | n < |WalletCalls(w, floor, cap)|
      ensures WalletCalls(w, floor, cap)[n].gas == Weight(w, WalletCalls(w, floor, cap)[n].call)
    {
      CallIsSent(w, floor, cap, n);
      WeightOfOwner(w, EventAt(w, floor, cap, n), WalletCalls(w, floor, cap)[n].call);
    }
  }

  lemma OneOwner(w: seq<Event>, i: nat, j: nat, call: Call)
    requires WalletOk(w) && i < |w| && j < |w| && Owns(w[i], call) && Owns(w[j], call)
    ensures i == j
  {
    if i < j {
      ApartNotOwned(w[i], w[j], call);
    } else if j < i {
      ApartNotOwned(w[j], w[i], call);
    }
  }

  /** The events' calls follow one another in the order of the events. */
  lemma EventsInOrder(w: seq<Event>, floor: int, cap: nat, m: nat, n: nat, i: nat, j: nat)
    requires WalletOk(w) && cap >= 1 && m < n < |WalletCalls(w, floor, cap)|
    requires i < |w| && Owns(w[i], WalletCalls(w, floor, cap)[m].call)
    requires j < |w| && Owns(w[j], WalletCalls(w, floor, cap)[n].call)
    ensures i <= j
  {
    CallIsSent(w, floor, cap, m);
    CallIsSent(w, floor, cap, n);
    OneOwner(w, EventAt(w, floor, cap, m), i, WalletCalls(w, floor, cap)[m].call);
    OneOwner(w, EventAt(w, floor, cap, n), j, WalletCalls(w, floor, cap)[n].call);
    PartsJoin(w, floor, cap);
    PartsInOrder(CallParts(w, floor, cap), m, n);
  }

  // ----- as a read shows it -----

  lemma {:induction false} SameLegsOfMarket(w: seq<Event>, market: Bytes32)
    ensures LegsOfMarket(ShownWallet(w), market) == LegsOfMarket(w, market)
  {
    if w != [] {
      SameLegsOfMarket(w[1..], market);
    }
  }

  /** A plan made from a read carries the weights of the wallet itself. */
  lemma ShownCallsAreWeighed(w: seq<Event>, floor: int, cap: nat)
    requires WalletOk(w) && cap >= 1
    ensures Weighed(w, ShownCalls(w, floor, cap))
  {
    var calls := ShownCalls(w, floor, cap);
    ShownWalletOk(w);
    CallsAreWeighed(ShownWallet(w), floor, cap);
    forall n: nat | n < |calls| ensures calls[n].gas == Weight(w, calls[n].call) {
      if calls[n].call.ConvertCall? {
        SameLegsOfMarket(w, calls[n].call.marketId);
      }
    }
  }
}
