/**
 * Exactly when a failure costs something while a YES token id is unknown. The plan made from a read
 * is followed call by call; after each, what has been freed and what a new read promises is compared
 * with what the first read promised. Nothing is ever lost if and only if no holding past the leg cap
 * with an unknown YES token id reaches too near the largest holding.
 */
module HiddenLoss {
  import opened Base
  import opened Ledger
  import opened Planner
  import opened PlanSteps
  import opened Resume
  import opened Optimality
  import opened Truncation
  import opened Snapshot
  import opened Layout
  import opened HiddenYes

  predicate Hidden(r: Row) {
    r.leg.yesTokenId.None?
  }

  // ----- what a ledger promises, and what a read of it does -----

  /** A read of the ledger promises exactly what the ledger itself does. */
  ghost predicate NoLoss(e: Event, floor: int, cap: nat) {
    Plan(ShownEvent(e), floor, cap).proceeds == Plan(e, floor, cap).proceeds
  }

  /** No leg whose YES is hidden holds more NO than the largest net NO. */
  ghost predicate HiddenLow(rows: seq<Row>) {
    forall i :: 0 <= i < |rows| && Hidden(rows[i]) ==> rows[i].no <= TopNet(rows)
  }

  lemma TopOfShown(rows: seq<Row>)
    ensures TopNet(ShownRows(rows)) == TopNet(rows) <==> HiddenLow(rows)
  {
    var s := ShownRows(rows);
    ShownTotals(rows);
    TopNetBounds(rows);
    TopNetBounds(s);
    if TopNet(s) == TopNet(rows) {
      forall i | 0 <= i < |rows| && Hidden(rows[i]) ensures rows[i].no <= TopNet(rows) {
        assert s[i].Net() == rows[i].no;
      }
    }
    if HiddenLow(rows) && TopNet(s) > 0 {
      var i :| 0 <= i < |s| && s[i].Net() == TopNet(s);
      assert Hidden(rows[i]) || s[i] == rows[i];
    }
  }

  /** With everything recoverable, nothing is lost exactly when hidden legs are low. */
  lemma NoLossIff(e: Event, floor: int, cap: nat)
    requires WellFormed(e) && cap >= 1 && Recoverable(e.rows, cap) && Recoverable(ShownRows(e.rows), cap)
    ensures NoLoss(e, floor, cap) <==> HiddenLow(e.rows)
  {
    ProceedsMeetBound(e, floor, cap);
    HiddenYesCost(e, floor, cap);
    TopOfShown(e.rows);
  }

  // ----- staying recoverable -----

  /** What a leg becomes keeps it mergeable or whole, and makes no new holding. */
  ghost predicate Eased(r: Row, r': Row) {
    && r'.leg == r.leg
    && (r'.Leftover() > 0 && (r.leg.conditionId.Some? || r.Paired() == 0) ==> r.Leftover() > 0)
    && (r.leg.conditionId.None? && r.Paired() == 0 ==> r'.Paired() == 0)
  }

  ghost predicate AllEased(rows: seq<Row>, rows': seq<Row>) {
    |rows'| == |rows| && forall i :: 0 <= i < |rows| ==> Eased(rows[i], rows'[i])
  }

  lemma {:induction false} EasedIsRecoverable(rows: seq<Row>, cap: nat, rows': seq<Row>, cap': nat)
    requires AllEased(rows, rows') && cap <= cap' && Recoverable(rows, cap)
    ensures Recoverable(rows', cap')
  {
    if rows != [] {
      assert forall i :: 0 <= i < |rows[1..]| ==> rows[1..][i] == rows[i + 1] && rows'[1..][i] == rows'[i + 1];
      assert Eased(rows[0], rows'[0]);
      EasedIsRecoverable(rows[1..], CapLeft(rows, cap), rows'[1..], CapLeft(rows', cap'));
    }
  }

  /** Hidden YES only on legs without NO. */
  ghost predicate Clean(rows: seq<Row>) {
    forall i :: 0 <= i < |rows| && Hidden(rows[i]) ==> rows[i].no == 0 || rows[i].yes == 0
  }

  lemma CleanIsLow(rows: seq<Row>)
    requires Clean(rows)
    ensures HiddenLow(rows)
  {
    TopNetBounds(rows);
    forall i | 0 <= i < |rows| && Hidden(rows[i]) ensures rows[i].no <= TopNet(rows) {
      assert rows[i].Net() <= TopNet(rows);
    }
  }

  lemma CleanShows(rows: seq<Row>, cap: nat)
    requires Clean(rows) && Recoverable(rows, cap)
    ensures Recoverable(ShownRows(rows), cap)
  {
    forall i | 0 <= i < |rows| ensures Eased(rows[i], ShownRows(rows)[i]) {
    }
    EasedIsRecoverable(rows, cap, ShownRows(rows), cap);
  }

  /** After a convert of the first holdings, the ledger as shown is still recoverable. */
  lemma {:induction false} ConvertShows(rows: seq<Row>, cap: nat, a: nat, cap': nat)
    requires Clean(rows) && Merges(rows) == [] && EachHolds(rows, a) && a > 0
    requires cap <= cap' && Recoverable(rows, cap)
    ensures Recoverable(ShownRows(ConvertFirstRows(rows, cap, a)), cap')
  {
    if rows != [] {
      var out := ConvertFirstRows(rows, cap, a);
      MergedTail(rows, a);
      assert forall i :: 0 <= i < |rows[1..]| ==> rows[1..][i] == rows[i + 1];
      ConvertFirstRowsHead(rows, cap, a);
      var s := ShownRows(out);
      assert s[0] == Shown(out[0]) && s[1..] == ShownRows(out[1..]);
      ConvertRowShows(rows[0], TakesHead(rows, cap), cap, a);
      ConvertShows(rows[1..], CapLeft(rows, cap), a, CapLeft(s, cap'));
    }
  }

  lemma ConvertRowShows(r: Row, burned: bool, cap: nat, a: nat)
    requires !Mergeable(r) && (burned <==> r.Leftover() > 0 && cap > 0) && (burned ==> a <= r.no)
    requires Hidden(r) ==> r.no == 0 || r.yes == 0
    requires r.leg.conditionId.Some? || (r.Paired() == 0 && (r.Leftover() > 0 ==> cap > 0))
    ensures var out := Shown(ConvertRow(r, burned, a));
      && (out.Leftover() > 0 ==> r.Leftover() > 0)
      && (out.leg.conditionId.Some? || out.Paired() == 0) && out.leg == r.leg
  {
  }

  lemma MergeShows(rows: seq<Row>, cap: nat, i: nat)
    requires i < |rows| && Mergeable(rows[i]) && Recoverable(ShownRows(rows), cap)
    ensures Recoverable(ShownRows(rows[i := Netted(rows[i])]), cap)
  {
    var rows' := rows[i := Netted(rows[i])];
    forall k | 0 <= k < |rows| ensures Eased(ShownRows(rows)[k], ShownRows(rows')[k]) {
    }
    EasedIsRecoverable(ShownRows(rows), cap, ShownRows(rows'), cap);
  }

  // ----- hidden legs along a run -----

  /** Hidden legs are low before every one of the calls and after the last. */
  ghost predicate StaysLow(e: Event, calls: seq<PlannedCall>)
    requires AllValid(e, calls)
    decreases |calls|
  {
    HiddenLow(e.rows) && (calls == [] || StaysLow(Exec(e, calls[0].call), calls[1..]))
  }

  lemma {:induction false} StaysLowConcat(e: Event, first: seq<PlannedCall>, rest: seq<PlannedCall>)
    requires AllValid(e, first + rest)
    ensures AllValid(e, first) && AllValid(ExecAll(e, first), rest)
    ensures StaysLow(e, first + rest) <==> StaysLow(e, first) && StaysLow(ExecAll(e, first), rest)
    decreases |first|
  {
    if first == [] {
      assert first + rest == rest;
    } else {
      assert (first + rest)[0] == first[0] && (first + rest)[1..] == first[1..] + rest;
      StaysLowConcat(Exec(e, first[0].call), first[1..], rest);
    }
  }

  lemma MergeKeepsLow(rows: seq<Row>, i: nat)
    requires i < |rows| && HiddenLow(rows)
    ensures HiddenLow(rows[i := Netted(rows[i])])
  {
    var rows' := rows[i := Netted(rows[i])];
    TopNetShift(rows, rows', 0);
  }

  /** Merging never raises a hidden leg. */
  lemma {:induction false} MergesStayLow(e: Event)
    requires WellFormed(e)
    ensures AllValid(e, MergeCalls(Merges(e.rows)))
    ensures StaysLow(e, MergeCalls(Merges(e.rows))) <==> HiddenLow(e.rows)
    decreases |Merges(e.rows)|
  {
    MergesNet(e);
    var merges := Merges(e.rows);
    if merges != [] {
      var i := FirstMerge(e.rows);
      MergeExec(e, i);
      var call := MergeCall(merges[0].conditionId, merges[0].amount);
      var e' := Exec(e, call);
      MergesStayLow(e');
      assert MergeCalls(merges)[0].call == call && MergeCalls(merges)[1..] == MergeCalls(Merges(e'.rows));
      if HiddenLow(e.rows) {
        MergeKeepsLow(e.rows, i);
      }
    }
  }

  // ----- the condition -----

  /**
   * No hidden leg that leaves `v` or more, behind `cap` others that do, reaches within `gap` of the
   * largest net NO.
   */
  ghost predicate LevelClear(rows: seq<Row>, cap: nat, v: nat, gap: nat) {
    forall i: nat :: i < |rows| && Hidden(rows[i]) && v <= rows[i].Leftover() && cap <= Ahead(rows, i, v)
      ==> rows[i].Leftover() + gap <= TopNet(rows)
  }

  /**
   * For each leftover size, no hidden leg truncated at it leaves more than the largest leftover less
   * the gap to the next smaller size.
   */
  ghost predicate Clear(rows: seq<Row>, cap: nat) {
    forall v: nat :: v > 0 && IsSize(rows, v) ==> LevelClear(rows, cap, v, Gap(NextBelow(rows, v), v))
  }

  /** `low` is `rows` with every leftover lowered by `a`. */
  ghost predicate LoweredBy(rows: seq<Row>, low: seq<Row>, a: nat) {
    && |low| == |rows| && TopNet(low) == Max(0, TopNet(rows) - a)
    && forall i :: 0 <= i < |rows| ==>
         low[i].leg == rows[i].leg && low[i].Leftover() == Max(0, rows[i].Leftover() - a)
  }

  lemma {:induction false} LoweredAhead(rows: seq<Row>, low: seq<Row>, a: nat, i: nat, v: nat)
    requires LoweredBy(rows, low, a) && i <= |rows| && v > 0
    ensures Ahead(low, i, v) == Ahead(rows, i, v + a)
  {
    if i > 0 {
      LoweredAhead(rows, low, a, i - 1, v);
    }
  }

  lemma LoweredLevelClear(rows: seq<Row>, low: seq<Row>, cap: nat, a: nat, v: nat, gap: nat)
    requires LoweredBy(rows, low, a) && v > 0
    ensures LevelClear(low, cap, v, gap) <==> LevelClear(rows, cap, v + a, gap)
  {
    TopNetBounds(rows);
    forall i: nat | i < |rows| ensures Ahead(low, i, v) == Ahead(rows, i, v + a) {
      LoweredAhead(rows, low, a, i, v);
    }
    forall i: nat | i < |rows| ensures rows[i].Leftover() <= TopNet(rows) {
      assert rows[i].Net() <= TopNet(rows);
    }
  }

  lemma LoweredSize(rows: seq<Row>, low: seq<Row>, a: nat, v: nat)
    requires LoweredBy(rows, low, a) && v > 0
    ensures IsSize(low, v) <==> IsSize(rows, v + a)
  {
    if IsSize(low, v) {
      var i :| 0 <= i < |low| && low[i].Leftover() == v;
      assert rows[i].Leftover() == v + a;
    }
    if IsSize(rows, v + a) {
      var i :| 0 <= i < |rows| && rows[i].Leftover() == v + a;
      assert low[i].Leftover() == v;
    }
  }

  lemma LoweredBelow(rows: seq<Row>, low: seq<Row>, a: nat, v: nat)
    requires LoweredBy(rows, low, a) && v > 0 && (a == 0 || IsSize(rows, a))
    ensures NextBelow(rows, v + a) == NextBelow(low, v) + a
  {
    NextBelowIs(rows, v + a);
    NextBelowIs(low, v);
    var x, y := NextBelow(rows, v + a), NextBelow(low, v);
    if a > 0 {
      var i :| 0 <= i < |rows| && rows[i].Leftover() == a;
      assert a <= x;
    }
    if x > a {
      var i :| 0 <= i < |rows| && rows[i].Leftover() == x;
      assert low[i].Leftover() == x - a;
    }
    if y > 0 {
      var i :| 0 <= i < |low| && low[i].Leftover() == y;
      assert rows[i].Leftover() == y + a;
    }
  }

  /** Lowering the holdings leaves the conditions of all larger sizes. */
  lemma LoweredClear(rows: seq<Row>, low: seq<Row>, cap: nat, a: nat)
    requires LoweredBy(rows, low, a) && (a == 0 || IsSize(rows, a))
    ensures Clear(low, cap) <==>
      forall v: nat :: v > a && IsSize(rows, v) ==> LevelClear(rows, cap, v, Gap(NextBelow(rows, v), v))
  {
    forall v: nat | v > 0
      ensures IsSize(low, v) <==> IsSize(rows, v + a)
      ensures LevelClear(low, cap, v, Gap(NextBelow(low, v), v))
         <==> LevelClear(rows, cap, v + a, Gap(NextBelow(rows, v + a), v + a))
    {
      LoweredSize(rows, low, a, v);
      LoweredBelow(rows, low, a, v);
      NextBelowIs(low, v);
      LoweredLevelClear(rows, low, cap, a, v, Gap(NextBelow(low, v), v));
    }
    if Clear(low, cap) {
      forall v: nat | v > a && IsSize(rows, v) ensures LevelClear(rows, cap, v, Gap(NextBelow(rows, v), v)) {
        assert IsSize(low, v - a) <==> IsSize(rows, (v - a) + a);
        assert (v - a) + a == v;
      }
    }
  }

  lemma SmallestBelow(rows: seq<Row>, a: nat)
    requires a > 0 && EachHolds(rows, a)
    ensures NextBelow(rows, a) == 0
  {
    NextBelowIs(rows, a);
    forall i | 0 <= i < |rows| && rows[i].Leftover() > 0 ensures rows[i].Leftover() != NextBelow(rows, a) {
    }
  }

  /** The first tier's condition, and the conditions of what it leaves. */
  lemma ClearStep(rows: seq<Row>, low: seq<Row>, cap: nat, a: nat)
    requires a > 0 && EachHolds(rows, a) && IsSize(rows, a) && LoweredBy(rows, low, a)
    ensures Clear(rows, cap) <==> LevelClear(rows, cap, a, a) && Clear(low, cap)
  {
    SmallestBelow(rows, a);
    LoweredClear(rows, low, cap, a);
    forall v: nat | v > 0 && IsSize(rows, v) ensures v >= a {
      var i :| 0 <= i < |rows| && rows[i].Leftover() == v;
    }
  }

  // ----- the first convert -----

  lemma {:induction false} MaskIsAhead(rows: seq<Row>, cap: nat, i: nat)
    requires i < |rows|
    ensures FirstMask(rows, cap)[i] <==> rows[i].Leftover() > 0 && Ahead(rows, i, 1) < cap
  {
    if i > 0 {
      AheadShift(rows, i - 1, 1);
      MaskIsAhead(rows[1..], CapLeft(rows, cap), i - 1);
      assert FirstMask(rows, cap)[i] == FirstMask(rows[1..], CapLeft(rows, cap))[i - 1];
    }
  }

  lemma ConvertTop(rows: seq<Row>, cap: nat, a: nat)
    requires EachHolds(rows, a) && a <= TopNet(rows)
    ensures TopNet(ConvertFirstRows(rows, cap, a)) == TopNet(rows) - a
  {
    FirstMaskCovers(rows, cap, a);
    TopNetShift(rows, ConvertFirstRows(rows, cap, a), a);
  }

  /** One hidden leg of a clean ledger after the first convert. */
  lemma HiddenAfterConvert(rows: seq<Row>, cap: nat, a: nat, i: nat)
    requires Clean(rows) && EachHolds(rows, a) && a > 0 && a <= TopNet(rows)
    requires i < |rows| && Hidden(rows[i])
    ensures ConvertFirstRows(rows, cap, a)[i].no <= TopNet(rows) - a <==>
      (a <= rows[i].Leftover() && cap <= Ahead(rows, i, a) ==> rows[i].Leftover() + a <= TopNet(rows))
  {
    FirstMaskCovers(rows, cap, a);
    MaskIsAhead(rows, cap, i);
    AheadSame(rows, i, a);
    TopNetBounds(rows);
    assert rows[i].Net() <= TopNet(rows);
    assert ConvertFirstRows(rows, cap, a)[i] == ConvertRow(rows[i], FirstMask(rows, cap)[i], a);
  }

  /** Hidden legs are low after the first convert exactly when its tier's condition holds. */
  lemma LowAfterConvert(rows: seq<Row>, cap: nat, a: nat)
    requires Clean(rows) && EachHolds(rows, a) && a > 0 && a <= TopNet(rows)
    ensures HiddenLow(ConvertFirstRows(rows, cap, a)) <==> LevelClear(rows, cap, a, a)
  {
    var out := ConvertFirstRows(rows, cap, a);
    FirstMaskCovers(rows, cap, a);
    ConvertTop(rows, cap, a);
    forall i: nat | i < |rows| && Hidden(rows[i])
      ensures out[i].no <= TopNet(rows) - a <==>
        (a <= rows[i].Leftover() && cap <= Ahead(rows, i, a) ==> rows[i].Leftover() + a <= TopNet(rows))
    {
      HiddenAfterConvert(rows, cap, a, i);
    }
    assert forall i :: 0 <= i < |rows| ==> out[i].leg == rows[i].leg;
    if HiddenLow(out) {
      forall i: nat | i < |rows| && Hidden(rows[i]) && a <= rows[i].Leftover() && cap <= Ahead(rows, i, a)
        ensures rows[i].Leftover() + a <= TopNet(rows)
      {
        assert out[i].no <= TopNet(out);
      }
    }
  }

  lemma NettedRow(r: Row)
    ensures NetRow(r).leg == r.leg && NetRow(r).Net() == r.Net() && NetRow(r).Leftover() == r.Leftover()
  {
  }

  /** After a tier's convert and its post-merges every leftover is lowered by the tier's amount. */
  lemma TierLowers(rows: seq<Row>, cap: nat, a: nat)
    requires Merges(rows) == [] && EachHolds(rows, a) && a > 0 && a <= TopNet(rows)
    ensures LoweredBy(rows, NetRows(ConvertFirstRows(rows, cap, a)), a)
  {
    var out := ConvertFirstRows(rows, cap, a);
    FirstMaskCovers(rows, cap, a);
    forall i | 0 <= i < |rows|
      ensures NetRows(out)[i].leg == rows[i].leg && NetRows(out)[i].Net() == rows[i].Net() - a
      ensures NetRows(out)[i].Leftover() == Max(0, rows[i].Leftover() - a)
    {
      NettedRow(out[i]);
      assert out[i] == ConvertRow(rows[i], FirstMask(rows, cap)[i], a);
    }
    TopNetShift(rows, NetRows(out), a);
  }

  /** Merging the pairs of a clean ledger changes no leftover. */
  lemma NettingLowers(rows: seq<Row>)
    ensures LoweredBy(rows, NetRows(rows), 0)
  {
    forall i | 0 <= i < |rows|
      ensures NetRows(rows)[i].leg == rows[i].leg && NetRows(rows)[i].Net() == rows[i].Net()
      ensures NetRows(rows)[i].Leftover() == rows[i].Leftover()
    {
      NettedRow(rows[i]);
    }
    TopNetShift(rows, NetRows(rows), 0);
  }

  lemma NettingRecovers(rows: seq<Row>, cap: nat)
    requires Recoverable(rows, cap)
    ensures Recoverable(NetRows(rows), cap)
  {
    forall i | 0 <= i < |rows| ensures Eased(rows[i], NetRows(rows)[i]) {
      NettedRow(rows[i]);
    }
    EasedIsRecoverable(rows, cap, NetRows(rows), cap);
  }

  lemma NettingCleans(rows: seq<Row>)
    requires Clean(rows)
    ensures Clean(NetRows(rows))
  {
  }

  /** Once a tier's post-merges are done the ledger is clean again. */
  lemma {:induction false} TierCleans(rows: seq<Row>, cap: nat, a: nat)
    requires Clean(rows) && Merges(rows) == [] && EachHolds(rows, a) && a > 0 && Recoverable(rows, cap)
    ensures Clean(NetRows(ConvertFirstRows(rows, cap, a)))
  {
    if rows != [] {
      var out := ConvertFirstRows(rows, cap, a);
      MergedTail(rows, a);
      assert forall i :: 0 <= i < |rows[1..]| ==> rows[1..][i] == rows[i + 1];
      ConvertFirstRowsHead(rows, cap, a);
      TierCleans(rows[1..], CapLeft(rows, cap), a);
      var net := NetRows(out);
      assert net[0] == NetRow(out[0]) && net[1..] == NetRows(out[1..]);
      assert forall i :: 1 <= i < |net| ==> net[i] == net[1..][i - 1];
    }
  }

  // ----- staying recoverable along a run -----

  /** The ledger, and what shows of it, stay recoverable. */
  ghost predicate StaysShown(e: Event, calls: seq<PlannedCall>, cap: nat)
    requires AllValid(e, calls)
    decreases |calls|
  {
    && WellFormed(e) && Recoverable(e.rows, cap) && Recoverable(ShownRows(e.rows), cap)
    && (calls == [] || StaysShown(Exec(e, calls[0].call), calls[1..], cap))
  }

  lemma {:induction false} StaysShownConcat(e: Event, first: seq<PlannedCall>, rest: seq<PlannedCall>, cap: nat)
    requires AllValid(e, first + rest)
    ensures AllValid(e, first) && AllValid(ExecAll(e, first), rest)
    ensures StaysShown(e, first + rest, cap) <==> StaysShown(e, first, cap) && StaysShown(ExecAll(e, first), rest, cap)
    decreases |first|
  {
    if first == [] {
      assert first + rest == rest;
    } else {
      assert (first + rest)[0] == first[0] && (first + rest)[1..] == first[1..] + rest;
      StaysShownConcat(Exec(e, first[0].call), first[1..], rest, cap);
    }
  }

  lemma {:induction false} MergesStayShown(e: Event, cap: nat)
    requires WellFormed(e) && Recoverable(e.rows, cap) && Recoverable(ShownRows(e.rows), cap)
    ensures AllValid(e, MergeCalls(Merges(e.rows)))
    ensures StaysShown(e, MergeCalls(Merges(e.rows)), cap)
    decreases |Merges(e.rows)|
  {
    MergesNet(e);
    var merges := Merges(e.rows);
    if merges != [] {
      var i := FirstMerge(e.rows);
      MergeExec(e, i);
      var call := MergeCall(merges[0].conditionId, merges[0].amount);
      var e' := Exec(e, call);
      RecoverableAfterMerge(e.rows, cap, i);
      MergeShows(e.rows, cap, i);
      MergesStayShown(e', cap);
      assert MergeCalls(merges)[0].call == call && MergeCalls(merges)[1..] == MergeCalls(Merges(e'.rows));
    }
  }

  /** The plan as its merges, and the plan of the ledger they leave. */
  lemma MergesFirst(e: Event, floor: int, cap: nat) returns (e': Event)
    requires WellFormed(e) && cap >= 1
    ensures AllValid(e, MergeCalls(Merges(e.rows))) && e' == ExecAll(e, MergeCalls(Merges(e.rows)))
    ensures e'.rows == NetRows(e.rows) && WellFormed(e') && Merges(e'.rows) == []
    ensures AllValid(e, Calls(e, floor, cap)) && AllValid(e', Calls(e', floor, cap))
    ensures Calls(e, floor, cap) == MergeCalls(Merges(e.rows)) + Calls(e', floor, cap)
  {
    e' := AfterPreMerges(e, floor, cap);
    MergesNet(e);
    CallsFrom(e, floor, cap, Merges(e.rows), Tiers(Holdings(e.rows), floor, cap));
    CallsFrom(e', floor, cap, [], Tiers(Holdings(e'.rows), floor, cap));
    assert MergeCalls([]) + TierCalls(Tiers(Holdings(e'.rows), floor, cap), |e'.rows|)
        == TierCalls(Tiers(Holdings(e'.rows), floor, cap), |e'.rows|);
  }

  /** A pair-free ledger's plan as its first convert, and the plan of the ledger that leaves. */
  lemma ConvertFirstCall(e: Event, floor: int, cap: nat) returns (a: nat, first: PlannedCall, e1: Event)
    requires WellFormed(e) && cap >= 1 && Merges(e.rows) == [] && Tiers(Holdings(e.rows), floor, cap) != []
    ensures TierReady(e, a) && IsSize(e.rows, a) && a <= TopNet(e.rows)
    ensures Valid(e, first.call) && e1 == Exec(e, first.call) && e1.rows == ConvertFirstRows(e.rows, cap, a)
    ensures WellFormed(e1) && Calls(e, floor, cap) == [first] + Calls(e1, floor, cap)
  {
    var tiers := Tiers(Holdings(e.rows), floor, cap);
    a := FirstTier(e, floor, cap);
    SmallestIsSize(e, floor, cap, a);
    HeadConvert(e, floor, cap);
    CallsFrom(e, floor, cap, [], tiers);
    TierCallsHead(tiers, |e.rows|);
    first := Calls(e, floor, cap)[0];
    e1 := Exec(e, first.call);
    TierDecodes(e, cap, a);
    ConvertExec(e, cap, a);
    FirstMaskCovers(e.rows, cap, a);
    TiersHeadBounds(e, a);
    assert Calls(e, floor, cap) == [first] + Calls(e, floor, cap)[1..];
  }

  lemma SmallestIsSize(e: Event, floor: int, cap: nat, a: nat)
    requires WellFormed(e) && Tiers(Holdings(e.rows), floor, cap) != []
    requires Tiers(Holdings(e.rows), floor, cap)[0] == TierOf(Holdings(e.rows), a, cap)
    ensures IsSize(e.rows, a)
  {
    FirstTierLevel(Holdings(e.rows), floor, cap, a);
    var levels := SortedLevels(Holdings(e.rows));
    assert levels[0] in levels;
    SizeIsLevel(e.rows, a);
  }

  /** With at most one holding nothing is truncated. */
  lemma LoneIsClear(rows: seq<Row>, cap: nat)
    requires cap >= 1 && |Holdings(rows)| <= 1
    ensures Clear(rows, cap)
  {
    forall v: nat | v > 0 && IsSize(rows, v) ensures LevelClear(rows, cap, v, Gap(NextBelow(rows, v), v)) {
      forall i: nat | i < |rows| && v <= rows[i].Leftover() ensures Ahead(rows, i, v) < cap {
        HoldingAhead(rows, i);
        AheadFalls(rows, i, 1, v);
      }
    }
  }

  /** What the plan of a pair-free, clean and recoverable ledger does to hidden legs. */
  lemma {:induction false} TiersStayLow(e: Event, floor: int, cap: nat)
    requires WellFormed(e) && cap >= 1 && Merges(e.rows) == [] && Clean(e.rows) && Recoverable(e.rows, cap)
    ensures AllValid(e, Calls(e, floor, cap)) && StaysShown(e, Calls(e, floor, cap), cap)
    ensures StaysLow(e, Calls(e, floor, cap)) <==> Clear(e.rows, cap)
    decreases |Calls(e, floor, cap)|
  {
    CleanIsLow(e.rows);
    CleanShows(e.rows, cap);
    if Tiers(Holdings(e.rows), floor, cap) == [] {
      CallsFrom(e, floor, cap, [], []);
      NoTiersLoneHolding(Holdings(e.rows), floor, cap);
      LoneIsClear(e.rows, cap);
    } else {
      var a, first, e1 := ConvertFirstCall(e, floor, cap);
      var e2 := MergesFirst(e1, floor, cap);
      TierLeaves(e, e1, e2, cap, a);
      TiersStayLow(e2, floor, cap);
      MergesStayLow(e1);
      MergesStayShown(e1, cap);
      StaysLowConcat(e1, MergeCalls(Merges(e1.rows)), Calls(e2, floor, cap));
      StaysShownConcat(e1, MergeCalls(Merges(e1.rows)), Calls(e2, floor, cap), cap);
      FirstThenRest(e, first, Calls(e1, floor, cap), cap);
    }
  }

  lemma FirstThenRest(e: Event, first: PlannedCall, rest: seq<PlannedCall>, cap: nat)
    requires Valid(e, first.call) && AllValid(Exec(e, first.call), rest)
    ensures AllValid(e, [first] + rest)
    ensures StaysLow(e, [first] + rest) <==> HiddenLow(e.rows) && StaysLow(Exec(e, first.call), rest)
    ensures StaysShown(e, [first] + rest, cap) <==>
      WellFormed(e) && Recoverable(e.rows, cap) && Recoverable(ShownRows(e.rows), cap)
      && StaysShown(Exec(e, first.call), rest, cap)
  {
    assert ([first] + rest)[1..] == rest;
  }

  /** The ledger after a tier's convert, and after its post-merges. */
  lemma TierLeaves(e: Event, e1: Event, e2: Event, cap: nat, a: nat)
    requires TierReady(e, a) && IsSize(e.rows, a) && a <= TopNet(e.rows) && cap >= 1
    requires Clean(e.rows) && Recoverable(e.rows, cap)
    requires e1.rows == ConvertFirstRows(e.rows, cap, a) && e2.rows == NetRows(e1.rows)
    ensures Recoverable(e1.rows, cap) && Recoverable(ShownRows(e1.rows), cap)
    ensures Clean(e2.rows) && Recoverable(e2.rows, cap)
    ensures HiddenLow(e1.rows) <==> LevelClear(e.rows, cap, a, a)
    ensures Clear(e.rows, cap) <==> LevelClear(e.rows, cap, a, a) && Clear(e2.rows, cap)
  {
    RecoverableAfterConvert(e.rows, cap, a, cap);
    ConvertShows(e.rows, cap, a, cap);
    TierCleans(e.rows, cap, a);
    NettingRecovers(e1.rows, cap);
    LowAfterConvert(e.rows, cap, a);
    TierLowers(e.rows, cap, a);
    ClearStep(e.rows, e2.rows, cap, a);
  }

  lemma NettingKeeps(rows: seq<Row>, cap: nat)
    requires Clean(rows) && Recoverable(rows, cap)
    ensures HiddenLow(rows) && Recoverable(ShownRows(rows), cap)
    ensures Clean(NetRows(rows)) && Recoverable(NetRows(rows), cap)
    ensures Clear(NetRows(rows), cap) <==> Clear(rows, cap)
  {
    CleanIsLow(rows);
    CleanShows(rows, cap);
    NettingCleans(rows);
    NettingRecovers(rows, cap);
    NettingLowers(rows);
    LoweredClear(rows, NetRows(rows), cap, 0);
  }

  lemma MergesThenRest(e: Event, e': Event, rest: seq<PlannedCall>, cap: nat)
    requires WellFormed(e) && HiddenLow(e.rows) && Recoverable(e.rows, cap) && Recoverable(ShownRows(e.rows), cap)
    requires AllValid(e, MergeCalls(Merges(e.rows)) + rest)
    requires AllValid(e, MergeCalls(Merges(e.rows))) && e' == ExecAll(e, MergeCalls(Merges(e.rows)))
    requires AllValid(e', rest) && StaysShown(e', rest, cap)
    ensures StaysShown(e, MergeCalls(Merges(e.rows)) + rest, cap)
    ensures StaysLow(e, MergeCalls(Merges(e.rows)) + rest) <==> StaysLow(e', rest)
  {
    MergesStayLow(e);
    MergesStayShown(e, cap);
    StaysLowConcat(e, MergeCalls(Merges(e.rows)), rest);
    StaysShownConcat(e, MergeCalls(Merges(e.rows)), rest, cap);
  }

  /** The whole plan of a clean and recoverable ledger. */
  lemma PlanStaysLow(e: Event, floor: int, cap: nat)
    requires WellFormed(e) && cap >= 1 && Clean(e.rows) && Recoverable(e.rows, cap)
    ensures AllValid(e, Calls(e, floor, cap)) && StaysShown(e, Calls(e, floor, cap), cap)
    ensures StaysLow(e, Calls(e, floor, cap)) <==> Clear(e.rows, cap)
  {
    var e' := MergesFirst(e, floor, cap);
    NettingKeeps(e.rows, cap);
    TiersStayLow(e', floor, cap);
    MergesThenRest(e, e', Calls(e', floor, cap), cap);
  }

  // ----- resuming -----

  /** Nothing is lost before any of the calls, nor after the last. */
  ghost predicate NeverLoses(e: Event, floor: int, cap: nat, calls: seq<PlannedCall>)
    requires AllValid(e, calls)
    decreases |calls|
  {
    NoLoss(e, floor, cap) && (calls == [] || NeverLoses(Exec(e, calls[0].call), floor, cap, calls[1..]))
  }

  lemma {:induction false} NeverLosesIff(e: Event, floor: int, cap: nat, calls: seq<PlannedCall>)
    requires cap >= 1 && AllValid(e, calls) && StaysShown(e, calls, cap)
    ensures NeverLoses(e, floor, cap, calls) <==> StaysLow(e, calls)
    decreases |calls|
  {
    NoLossIff(e, floor, cap);
    if calls != [] {
      NeverLosesIff(Exec(e, calls[0].call), floor, cap, calls[1..]);
    }
  }

  /** Nothing is lost after the first `k` of the calls. */
  ghost predicate NoLossAfter(e: Event, floor: int, cap: nat, calls: seq<PlannedCall>, k: nat)
    requires k <= |calls|
  {
    AllValid(e, calls[..k]) && NoLoss(ExecAll(e, calls[..k]), floor, cap)
  }

  lemma NoLossLater(e: Event, floor: int, cap: nat, calls: seq<PlannedCall>, k: nat)
    requires 0 < k <= |calls| && AllValid(e, calls)
    ensures NoLossAfter(e, floor, cap, calls, k)
       <==> NoLossAfter(Exec(e, calls[0].call), floor, cap, calls[1..], k - 1)
  {
    assert calls[..k][0] == calls[0] && calls[..k][1..] == calls[1..][..k - 1];
  }

  lemma {:induction false} NeverLosesAt(e: Event, floor: int, cap: nat, calls: seq<PlannedCall>)
    requires AllValid(e, calls)
    ensures NeverLoses(e, floor, cap, calls) <==>
      forall k: nat :: k <= |calls| ==> NoLossAfter(e, floor, cap, calls, k)
    decreases |calls|
  {
    assert calls[..0] == [];
    assert NoLossAfter(e, floor, cap, calls, 0) <==> NoLoss(e, floor, cap);
    if calls != [] {
      var e', rest := Exec(e, calls[0].call), calls[1..];
      NeverLosesAt(e', floor, cap, rest);
      forall k: nat | k <= |rest|
        ensures NoLossAfter(e, floor, cap, calls, k + 1) <==> NoLossAfter(e', floor, cap, rest, k)
      {
        NoLossLater(e, floor, cap, calls, k + 1);
      }
      if NeverLoses(e, floor, cap, calls) {
        forall k: nat | k <= |calls| ensures NoLossAfter(e, floor, cap, calls, k) {
          assert k > 0 ==> NoLossAfter(e', floor, cap, rest, k - 1);
        }
      }
    }
  }

  /** The two ledgers show alike, and the first holds all the second does. */
  ghost predicate SameView(e: Event, s: Event) {
    HoldsAll(e, s, 0) && forall i :: 0 <= i < |e.rows| && !Hidden(e.rows[i]) ==> e.rows[i] == s.rows[i]
  }

  lemma SameViewStep(e: Event, s: Event, call: Call)
    requires SameView(e, s) && Valid(s, call)
    ensures Valid(e, call) && SameView(Exec(e, call), Exec(s, call))
  {
    RunsOnMore(e, s, 0, call);
    SameStep(e, s, 0, call);
  }

  lemma {:induction false} SameViewRun(e: Event, s: Event, calls: seq<PlannedCall>)
    requires SameView(e, s) && AllValid(s, calls)
    ensures AllValid(e, calls) && SameView(ExecAll(e, calls), ExecAll(s, calls))
    decreases |calls|
  {
    if calls != [] {
      SameViewStep(e, s, calls[0].call);
      SameViewRun(Exec(e, calls[0].call), Exec(s, calls[0].call), calls[1..]);
    }
  }

  lemma SameViewShows(e: Event, s: Event)
    requires SameView(e, s)
    ensures ShownEvent(e) == ShownEvent(s)
  {
    forall i | 0 <= i < |e.rows| ensures ShownRows(e.rows)[i] == ShownRows(s.rows)[i] {
      assert Hidden(e.rows[i]) || e.rows[i] == s.rows[i];
    }
    assert ShownRows(e.rows) == ShownRows(s.rows);
  }

  lemma ShownTwice(e: Event)
    ensures SameView(e, ShownEvent(e)) && ShownEvent(ShownEvent(e)) == ShownEvent(e) && Clean(ShownRows(e.rows))
  {
    var rows := ShownRows(e.rows);
    assert ShownRows(rows) == rows;
  }

  /**
   * After the first `k` calls planned from a read, what has been freed and what a new read promises
   * make up what the first read promised.
   */
  ghost predicate Resumed(e: Event, floor: int, cap: nat, k: nat)
    requires cap >= 1 && k <= |Calls(ShownEvent(e), floor, cap)|
  {
    var calls := Calls(ShownEvent(e), floor, cap)[..k];
    AllValid(e, calls)
    && var e' := ExecAll(e, calls);
    e'.usdc + Plan(ShownEvent(e'), floor, cap).proceeds == e.usdc + Plan(ShownEvent(e), floor, cap).proceeds
  }

  lemma ResumedIsNoLoss(e: Event, floor: int, cap: nat, k: nat)
    requires WellFormed(e) && cap >= 1 && k <= |Calls(ShownEvent(e), floor, cap)|
    ensures Resumed(e, floor, cap, k) <==>
      NoLossAfter(ShownEvent(e), floor, cap, Calls(ShownEvent(e), floor, cap), k)
  {
    var s := ShownEvent(e);
    var calls := Calls(s, floor, cap)[..k];
    ShownIsWellFormed(e);
    ShownTwice(e);
    PrefixThenReplan(s, floor, cap, k);
    SameViewRun(e, s, calls);
    SameViewShows(ExecAll(e, calls), ExecAll(s, calls));
  }

  /**
   * For an event that is recoverable as shown: a failure costs nothing at any point of the plan made
   * from a read if and only if, for each leftover size, no leg with an unknown YES token id that the
   * cap truncates at that size leaves more than the largest leftover less the gap to the next smaller.
   */
  lemma ResumesIff(e: Event, floor: int, cap: nat)
    requires WellFormed(e) && cap >= 1 && Recoverable(ShownRows(e.rows), cap)
    ensures (forall k: nat :: k <= |Calls(ShownEvent(e), floor, cap)| ==> Resumed(e, floor, cap, k))
       <==> Clear(ShownRows(e.rows), cap)
  {
    var s := ShownEvent(e);
    var calls := Calls(s, floor, cap);
    ShownIsWellFormed(e);
    ShownTwice(e);
    PlanStaysLow(s, floor, cap);
    NeverLosesIff(s, floor, cap, calls);
    NeverLosesAt(s, floor, cap, calls);
    forall k: nat | k <= |calls|
      ensures Resumed(e, floor, cap, k) <==> NoLossAfter(s, floor, cap, calls, k)
    {
      ResumedIsNoLoss(e, floor, cap, k);
    }
    if Clear(s.rows, cap) {
      forall k: nat | k <= |calls| ensures Resumed(e, floor, cap, k) {
        assert NoLossAfter(s, floor, cap, calls, k);
      }
    }
    if forall k: nat :: k <= |calls| ==> Resumed(e, floor, cap, k) {
      forall k: nat | k <= |calls| ensures NoLossAfter(s, floor, cap, calls, k) {
        assert Resumed(e, floor, cap, k);
      }
    }
  }
}
