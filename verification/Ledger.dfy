/**
 * One event as a ledger: per leg a NO and a YES balance, plus the collateral freed so far.
 * Merge, split and convert are the three on-chain operations; amounts are raw units.
 */
module Ledger {
  import opened Base

  datatype ConvertLeg = ConvertLeg(
    questionId: Bytes32,
    conditionId: Option<Bytes32>,
    yesTokenId: Option<int>,
    noTokenId: int)

  datatype Row = Row(leg: ConvertLeg, no: nat, yes: nat) {
    function Net(): int { no - yes }

    /** The part of the leg held on both sides. */
    function Paired(): (p: nat) { if no <= yes then no else yes }

    /** The NO left once the pairs are netted out. */
    function Leftover(): nat { no - Paired() }
  }

  datatype Event = Event(market: Bytes32, rows: seq<Row>, usdc: int)

  /** `legs` selects the legs of a convert, one flag per leg of the event. */
  datatype Step =
    | Merge(leg: nat, amount: nat)
    | Split(leg: nat, amount: nat)
    | Convert(legs: seq<bool>, amount: nat)

  function CountTrue(mask: seq<bool>): nat {
    if mask == [] then 0 else (if mask[0] then 1 else 0) + CountTrue(mask[1..])
  }

  function SumNo(rows: seq<Row>): nat {
    if rows == [] then 0 else rows[0].no + SumNo(rows[1..])
  }

  /** The largest net NO of any leg, and 0 when no leg is net long NO. */
  function TopNet(rows: seq<Row>): nat {
    if rows == [] then 0
    else if rows[0].Net() > TopNet(rows[1..]) then rows[0].Net()
    else TopNet(rows[1..])
  }

  lemma {:induction false} TopNetBounds(rows: seq<Row>)
    ensures forall i :: 0 <= i < |rows| ==> rows[i].Net() <= TopNet(rows)
    ensures TopNet(rows) == 0 || exists i :: 0 <= i < |rows| && rows[i].Net() == TopNet(rows)
  {
    if rows != [] {
      var tail := rows[1..];
      TopNetBounds(tail);
      assert forall i :: 1 <= i < |rows| ==> rows[i] == tail[i - 1];
      if TopNet(tail) > 0 && rows[0].Net() <= TopNet(tail) {
        var i :| 0 <= i < |tail| && tail[i].Net() == TopNet(tail);
        assert rows[i + 1].Net() == TopNet(rows);
      } else if TopNet(rows) > 0 {
        assert rows[0].Net() == TopNet(rows);
      }
    }
  }

  // ----- steps -----

  /** Whether every selected leg holds `amount` NO. */
  predicate Covers(rows: seq<Row>, mask: seq<bool>, amount: nat)
    requires |mask| == |rows|
  {
    forall i :: 0 <= i < |rows| && mask[i] ==> amount <= rows[i].no
  }

  predicate CanStep(e: Event, s: Step) {
    match s
    case Merge(i, a) => i < |e.rows| && a <= e.rows[i].no && a <= e.rows[i].yes
    case Split(i, a) => i < |e.rows| && a <= e.usdc
    case Convert(mask, a) => |mask| == |e.rows| && CountTrue(mask) > 0 && Covers(e.rows, mask, a)
  }

  function ConvertRow(r: Row, burned: bool, amount: nat): Row
    requires burned ==> amount <= r.no
  {
    if burned then Row(r.leg, r.no - amount, r.yes) else Row(r.leg, r.no, r.yes + amount)
  }

  /** Burns `amount` NO on the selected legs and mints `amount` YES on all the others. */
  function ConvertRows(rows: seq<Row>, mask: seq<bool>, amount: nat): (out: seq<Row>)
    requires |mask| == |rows| && Covers(rows, mask, amount)
    ensures |out| == |rows|
    ensures forall i :: 0 <= i < |rows| ==> out[i] == ConvertRow(rows[i], mask[i], amount)
  {
    if rows == [] then []
    else [ConvertRow(rows[0], mask[0], amount)] + ConvertRows(rows[1..], mask[1..], amount)
  }

  function Apply(e: Event, s: Step): (e': Event)
    requires CanStep(e, s)
    ensures |e'.rows| == |e.rows| && e'.market == e.market
    ensures forall i :: 0 <= i < |e.rows| ==> e'.rows[i].leg == e.rows[i].leg
  {
    match s
    case Merge(i, a) =>
      var r := e.rows[i];
      Event(e.market, e.rows[i := Row(r.leg, r.no - a, r.yes - a)], e.usdc + a)
    case Split(i, a) =>
      var r := e.rows[i];
      Event(e.market, e.rows[i := Row(r.leg, r.no + a, r.yes + a)], e.usdc - a)
    case Convert(mask, a) =>
      Event(e.market, ConvertRows(e.rows, mask, a), e.usdc + (CountTrue(mask) - 1) * a)
  }

  predicate CanRun(e: Event, steps: seq<Step>)
    decreases |steps|
  {
    steps == [] || (CanStep(e, steps[0]) && CanRun(Apply(e, steps[0]), steps[1..]))
  }

  function RunSteps(e: Event, steps: seq<Step>): Event
    requires CanRun(e, steps)
    decreases |steps|
  {
    if steps == [] then e else RunSteps(Apply(e, steps[0]), steps[1..])
  }

  // ----- what a step conserves -----

  /** What the holdings pay when leg `w` resolves YES: its YES, and the NO of every other leg. */
  function Payout(rows: seq<Row>, w: int): nat {
    if rows == [] then 0
    else (if w == 0 then rows[0].yes else rows[0].no) + Payout(rows[1..], w - 1)
  }

  /** The wallet's worth if leg `w` wins. */
  function Worth(e: Event, w: int): int {
    e.usdc + Payout(e.rows, w)
  }

  lemma {:induction false} PayoutIsSum(rows: seq<Row>, w: int)
    ensures Payout(rows, w) ==
      if 0 <= w < |rows| then SumNo(rows) - rows[w].no + rows[w].yes else SumNo(rows)
  {
    if rows != [] {
      PayoutIsSum(rows[1..], w - 1);
    }
  }

  lemma {:induction false} SumNoUpdate(rows: seq<Row>, i: nat, r: Row)
    requires i < |rows|
    ensures SumNo(rows[i := r]) == SumNo(rows) - rows[i].no + r.no
  {
    if i == 0 {
      assert rows[i := r][1..] == rows[1..];
    } else {
      SumNoUpdate(rows[1..], i - 1, r);
      assert rows[i := r][1..] == rows[1..][i - 1 := r];
    }
  }

  lemma {:induction false} SumNoConvert(rows: seq<Row>, mask: seq<bool>, a: nat)
    requires |mask| == |rows| && Covers(rows, mask, a)
    ensures SumNo(ConvertRows(rows, mask, a)) == SumNo(rows) - CountTrue(mask) * a
  {
    if rows != [] {
      SumNoConvert(rows[1..], mask[1..], a);
      var rest := ConvertRows(rows[1..], mask[1..], a);
      assert ConvertRows(rows, mask, a)[1..] == rest;
      assert CountTrue(mask) * a == (if mask[0] then a else 0) + CountTrue(mask[1..]) * a;
    }
  }

  /** Collateral plus all NO held. */
  function Stake(e: Event): int {
    e.usdc + SumNo(e.rows)
  }

  /** The convert amount of a step, 0 for the others. */
  function Burn(s: Step): nat {
    if s.Convert? then s.amount else 0
  }

  /** Every step lowers the stake and each leg's net NO by the same amount: the converted one. */
  lemma StepStake(e: Event, s: Step)
    requires CanStep(e, s)
    ensures Stake(Apply(e, s)) == Stake(e) - Burn(s)
  {
    match s
    case Merge(i, a) =>
      SumNoUpdate(e.rows, i, Row(e.rows[i].leg, e.rows[i].no - a, e.rows[i].yes - a));
    case Split(i, a) =>
      SumNoUpdate(e.rows, i, Row(e.rows[i].leg, e.rows[i].no + a, e.rows[i].yes + a));
    case Convert(mask, a) =>
      SumNoConvert(e.rows, mask, a);
      OneLess(CountTrue(mask), a);
  }

  lemma StepNet(e: Event, s: Step, i: nat)
    requires CanStep(e, s) && i < |e.rows|
    ensures Apply(e, s).rows[i].Net() == e.rows[i].Net() - Burn(s)
  {
  }

  lemma OneLess(n: nat, a: nat)
    ensures (n - 1) * a == n * a - a
  {
  }

  /** No step changes what the wallet is worth, whichever leg wins. */
  lemma WorthConserved(e: Event, s: Step, w: nat)
    requires CanStep(e, s) && w < |e.rows|
    ensures Worth(Apply(e, s), w) == Worth(e, w)
  {
    StepStake(e, s);
    StepNet(e, s, w);
    PayoutIsSum(e.rows, w);
    PayoutIsSum(Apply(e, s).rows, w);
  }

  lemma {:induction false} WorthConservedByRun(e: Event, steps: seq<Step>, w: nat)
    requires CanRun(e, steps) && w < |e.rows|
    ensures Worth(RunSteps(e, steps), w) == Worth(e, w)
    decreases |steps|
  {
    if steps != [] {
      WorthConserved(e, steps[0], w);
      WorthConservedByRun(Apply(e, steps[0]), steps[1..], w);
    }
  }

  // ----- how much can be freed -----

  /** The collateral that can still be freed: all NO held, less the largest net NO position. */
  function Freeable(rows: seq<Row>): int {
    SumNo(rows) - TopNet(rows)
  }

  lemma {:induction false} NoIsWithinSum(rows: seq<Row>, i: nat)
    requires i < |rows|
    ensures rows[i].no <= SumNo(rows)
  {
    if i > 0 {
      NoIsWithinSum(rows[1..], i - 1);
    }
  }

  lemma FreeableIsNonNegative(rows: seq<Row>)
    ensures Freeable(rows) >= 0
  {
    TopNetBounds(rows);
    if TopNet(rows) > 0 {
      var i :| 0 <= i < |rows| && rows[i].Net() == TopNet(rows);
      NoIsWithinSum(rows, i);
    }
  }

  lemma TopNetShift(rows: seq<Row>, rows': seq<Row>, a: nat)
    requires |rows| == |rows'|
    requires forall i :: 0 <= i < |rows| ==> rows'[i].Net() == rows[i].Net() - a
    ensures TopNet(rows') == Max(0, TopNet(rows) - a)
  {
    TopNetBounds(rows);
    TopNetBounds(rows');
    var m, m' := TopNet(rows), TopNet(rows');
    if m > 0 {
      var i :| 0 <= i < |rows| && rows[i].Net() == m;
      assert rows'[i].Net() == m - a;
    }
    if m' > 0 {
      var j :| 0 <= j < |rows'| && rows'[j].Net() == m';
      assert rows[j].Net() == m' + a;
    }
  }

  lemma StepTop(e: Event, s: Step)
    requires CanStep(e, s)
    ensures TopNet(Apply(e, s).rows) == Max(0, TopNet(e.rows) - Burn(s))
  {
    forall i | 0 <= i < |e.rows| ensures Apply(e, s).rows[i].Net() == e.rows[i].Net() - Burn(s) {
      StepNet(e, s, i);
    }
    TopNetShift(e.rows, Apply(e, s).rows, Burn(s));
  }

  /**
   * A step keeps "freed plus freeable", except a convert of more than the top net NO, which
   * loses exactly the excess.
   */
  lemma StepLoss(e: Event, s: Step)
    requires CanStep(e, s)
    ensures Apply(e, s).usdc + Freeable(Apply(e, s).rows) ==
      e.usdc + Freeable(e.rows) - Max(0, Burn(s) - TopNet(e.rows))
  {
    StepStake(e, s);
    StepTop(e, s);
  }

  lemma StepKeeps(e: Event, s: Step)
    requires CanStep(e, s) && Burn(s) <= TopNet(e.rows)
    ensures Apply(e, s).usdc + Freeable(Apply(e, s).rows) == e.usdc + Freeable(e.rows)
  {
    StepLoss(e, s);
  }

  lemma StepNeverGains(e: Event, s: Step)
    requires CanStep(e, s)
    ensures Apply(e, s).usdc + Freeable(Apply(e, s).rows) <= e.usdc + Freeable(e.rows)
  {
    StepLoss(e, s);
  }

  /** No finite sequence of merges, splits and converts frees more than Freeable. */
  lemma {:induction false} NothingFreesMore(e: Event, steps: seq<Step>)
    requires CanRun(e, steps)
    ensures RunSteps(e, steps).usdc - e.usdc <= Freeable(e.rows)
    decreases |steps|
  {
    if steps == [] {
      FreeableIsNonNegative(e.rows);
    } else {
      var e' := Apply(e, steps[0]);
      StepNeverGains(e, steps[0]);
      NothingFreesMore(e', steps[1..]);
      assert RunSteps(e, steps) == RunSteps(e', steps[1..]);
    }
  }
}
