/**
 * Resuming with YES token ids unknown. If every holding past the leg cap, as a balance read shows
 * it, has a known YES token id, then planning again from a read after any prefix of the plan gives
 * exactly the rest of it, for any number of failures.
 */
module HiddenResume {
  import opened Base
  import opened Ledger
  import opened Planner
  import opened PlanSteps
  import opened Resume
  import opened Optimality
  import opened Wallet
  import opened WalletBound
  import opened Layout
  import opened HiddenYes

  /** Walking the legs in order, a holding that `cap` others precede has a known YES token id. */
  predicate TailKnown(rows: seq<Row>, cap: nat) {
    rows == []
    || ((rows[0].Leftover() > 0 && cap == 0 ==> rows[0].leg.yesTokenId.Some?)
        && TailKnown(rows[1..], CapLeft(rows, cap)))
  }

  /** Two views of a leg that the planner cannot tell apart. */
  ghost predicate Alike(r: Row, s: Row) {
    r.leg == s.leg && MergeOf(r) == MergeOf(s) && HoldingOf(r) == HoldingOf(s)
  }

  ghost predicate AllAlike(r: seq<Row>, s: seq<Row>) {
    |r| == |s| && forall i :: 0 <= i < |r| ==> Alike(r[i], s[i])
  }

  lemma AlikeTail(r: seq<Row>, s: seq<Row>)
    requires AllAlike(r, s) && r != []
    ensures Alike(r[0], s[0]) && AllAlike(r[1..], s[1..])
  {
    assert forall i :: 0 <= i < |r[1..]| ==> r[1..][i] == r[i + 1] && s[1..][i] == s[i + 1];
  }

  lemma AlikeHolds(r: Row, s: Row)
    requires Alike(r, s)
    ensures r.Leftover() == s.Leftover()
  {
    if r.Leftover() > 0 {
      assert HoldingOf(r)[0] == HoldingOf(s)[0];
    }
  }

  lemma {:induction false} AlikePlans(r: seq<Row>, s: seq<Row>)
    requires AllAlike(r, s)
    ensures Merges(r) == Merges(s) && Holdings(r) == Holdings(s)
  {
    if r != [] {
      AlikeTail(r, s);
      AlikePlans(r[1..], s[1..]);
    }
  }

  lemma {:induction false} AlikeTails(r: seq<Row>, s: seq<Row>, cap: nat)
    requires AllAlike(r, s)
    ensures TailKnown(r, cap) <==> TailKnown(s, cap)
  {
    if r != [] {
      AlikeTail(r, s);
      AlikeHolds(r[0], s[0]);
      AlikeTails(r[1..], s[1..], CapLeft(r, cap));
    }
  }

  lemma AlikeCalls(e: Event, f: Event, floor: int, cap: nat)
    requires cap >= 1 && AllAlike(e.rows, f.rows)
    ensures Calls(e, floor, cap) == Calls(f, floor, cap) && Plan(e, floor, cap) == Plan(f, floor, cap)
  {
    AlikePlans(e.rows, f.rows);
  }

  // ----- one call -----

  lemma {:induction false} TailAfterMerge(rows: seq<Row>, cap: nat, i: nat)
    requires i < |rows|
    ensures TailKnown(rows[i := Netted(rows[i])], cap) <==> TailKnown(rows, cap)
  {
    var rows' := rows[i := Netted(rows[i])];
    if i == 0 {
      assert rows'[1..] == rows[1..];
    } else {
      assert rows'[1..] == rows[1..][i - 1 := Netted(rows[1..][i - 1])];
      TailAfterMerge(rows[1..], CapLeft(rows, cap), i - 1);
    }
  }

  /** A convert of the first holdings leaves only fewer of them past the cap. */
  lemma {:induction false} TailAfterConvert(rows: seq<Row>, cap: nat, a: nat, cap': nat)
    requires EachHolds(rows, a) && a > 0 && cap <= cap' && TailKnown(rows, cap)
    ensures TailKnown(ConvertFirstRows(rows, cap, a), cap')
  {
    if rows != [] {
      ConvertFirstRowsHead(rows, cap, a);
      var out := ConvertFirstRows(rows, cap, a);
      TailAfterConvert(rows[1..], CapLeft(rows, cap), a, CapLeft(out, cap'));
    }
  }

  /** The wallet's leg after a convert, as a read shows it, and the shown leg after the same convert. */
  lemma ShownConvertRow(r: Row, burned: bool, a: nat)
    requires burned ==> a <= r.no
    requires !burned && r.leg.yesTokenId.None? ==> Shown(r).Leftover() == 0
    ensures Alike(Shown(ConvertRow(r, burned, a)), ConvertRow(Shown(r), burned, a))
  {
  }

  lemma {:induction false} ShownConvert(rows: seq<Row>, s: seq<Row>, cap: nat, a: nat)
    requires s == ShownRows(rows) && EachHolds(s, a) && a > 0 && TailKnown(s, cap)
    requires Covers(rows, FirstMask(s, cap), a)
    ensures AllAlike(ShownRows(ConvertRows(rows, FirstMask(s, cap), a)), ConvertFirstRows(s, cap, a))
  {
    if rows != [] {
      var mask := FirstMask(s, cap);
      ConvertFirstRowsHead(s, cap, a);
      assert s[1..] == ShownRows(rows[1..]) && s[0] == Shown(rows[0]);
      assert mask[0] == TakesHead(s, cap) && mask[1..] == FirstMask(s[1..], CapLeft(s, cap));
      CoversTail(rows, mask, a);
      ShownConvert(rows[1..], s[1..], CapLeft(s, cap), a);
      ShownConvertRow(rows[0], mask[0], a);
      var out, full := ConvertRows(rows, mask, a), ConvertFirstRows(s, cap, a);
      assert out[0] == ConvertRow(rows[0], mask[0], a) && out[1..] == ConvertRows(rows[1..], mask[1..], a);
      AlikeCons(Shown(out[0]), ShownRows(out[1..]), full[0], full[1..]);
      assert ShownRows(out) == [Shown(out[0])] + ShownRows(out[1..]);
      assert full == [full[0]] + full[1..];
    }
  }

  lemma CoversTail(rows: seq<Row>, mask: seq<bool>, a: nat)
    requires rows != [] && |mask| == |rows| && Covers(rows, mask, a)
    ensures Covers(rows[1..], mask[1..], a) && (mask[0] ==> a <= rows[0].no)
  {
  }

  lemma AlikeCons(x: Row, s: seq<Row>, y: Row, t: seq<Row>)
    requires Alike(x, y) && AllAlike(s, t)
    ensures AllAlike([x] + s, [y] + t)
  {
  }

  /** What re-planning from a read finds after a call: the rest of the plan, as much promised, a known tail. */
  ghost predicate ShownDone(e: Event, e': Event, floor: int, cap: nat)
    requires cap >= 1 && Calls(ShownEvent(e), floor, cap) != []
  {
    && WellFormed(e')
    && Calls(ShownEvent(e'), floor, cap) == Calls(ShownEvent(e), floor, cap)[1..]
    && e'.usdc + Plan(ShownEvent(e'), floor, cap).proceeds == e.usdc + Plan(ShownEvent(e), floor, cap).proceeds
    && TailKnown(ShownRows(e'.rows), cap)
  }

  /** If the read of `e'` is, to the planner, the shown event after its first call, re-planning goes on. */
  lemma DoneIfAlike(e: Event, e': Event, s': Event, floor: int, cap: nat)
    requires cap >= 1 && Calls(ShownEvent(e), floor, cap) != [] && HeadDone(ShownEvent(e), s', floor, cap)
    requires WellFormed(e') && e'.usdc == s'.usdc && AllAlike(ShownRows(e'.rows), s'.rows) && TailKnown(s'.rows, cap)
    ensures ShownDone(e, e', floor, cap)
  {
    AlikeCalls(ShownEvent(e'), s', floor, cap);
    AlikeTails(ShownRows(e'.rows), s'.rows, cap);
  }

  lemma AlikeSelf(rows: seq<Row>)
    ensures AllAlike(rows, rows)
  {
  }

  lemma ShownUpdate(rows: seq<Row>, i: nat, r: Row)
    requires i < |rows|
    ensures ShownRows(rows[i := r]) == ShownRows(rows)[i := Shown(r)]
  {
  }

  lemma ShownMerge(e: Event, floor: int, cap: nat)
    requires WellFormed(e) && cap >= 1 && Merges(ShownRows(e.rows)) != [] && TailKnown(ShownRows(e.rows), cap)
    ensures Calls(ShownEvent(e), floor, cap) != []
    ensures Valid(e, Calls(ShownEvent(e), floor, cap)[0].call)
    ensures ShownDone(e, Exec(e, Calls(ShownEvent(e), floor, cap)[0].call), floor, cap)
  {
    var s := ShownEvent(e);
    ShownIsWellFormed(e);
    HeadMerge(s, floor, cap);
    var i := FirstMerge(s.rows);
    MergeExec(s, i);
    CallsFrom(s, floor, cap, Merges(s.rows), Tiers(Holdings(s.rows), floor, cap));
    MergeCallsHead(Merges(s.rows), TierCalls(Tiers(Holdings(s.rows), floor, cap), |s.rows|));
    var call := MergeCall(s.rows[i].leg.conditionId.value, s.rows[i].Paired());
    RunsOnMore(e, s, 0, call);
    assert s.rows[i] == e.rows[i];
    MergeOnLeg(e, i, call);
    ShownUpdate(e.rows, i, Netted(e.rows[i]));
    TailAfterMerge(s.rows, cap, i);
    AlikeSelf(Exec(s, call).rows);
    DoneIfAlike(e, Exec(e, call), Exec(s, call), floor, cap);
  }

  lemma MergeOnLeg(e: Event, i: nat, call: Call)
    requires WellFormed(e) && i < |e.rows| && Mergeable(e.rows[i])
    requires call == MergeCall(e.rows[i].leg.conditionId.value, e.rows[i].Paired())
    ensures Valid(e, call) && Exec(e, call).rows == e.rows[i := Netted(e.rows[i])]
    ensures WellFormed(Exec(e, call)) && Exec(e, call).usdc == e.usdc + e.rows[i].Paired()
  {
    MergeExec(e, i);
  }

  lemma ShownConvertCall(e: Event, floor: int, cap: nat)
    requires WellFormed(e) && cap >= 1 && Merges(ShownRows(e.rows)) == [] && TailKnown(ShownRows(e.rows), cap)
    requires Tiers(Holdings(ShownRows(e.rows)), floor, cap) != []
    ensures Calls(ShownEvent(e), floor, cap) != []
    ensures Valid(e, Calls(ShownEvent(e), floor, cap)[0].call)
    ensures ShownDone(e, Exec(e, Calls(ShownEvent(e), floor, cap)[0].call), floor, cap)
  {
    var s := ShownEvent(e);
    var tiers := Tiers(Holdings(s.rows), floor, cap);
    ShownIsWellFormed(e);
    HeadConvert(s, floor, cap);
    var a := FirstTier(s, floor, cap);
    CallsFrom(s, floor, cap, [], tiers);
    TierCallsHead(tiers, |s.rows|);
    var call := TierConvert(tiers[0], |s.rows|).call;
    ConvertOnMore(e, s, cap, a, call);
    TailAfterConvert(s.rows, cap, a, cap);
    DoneIfAlike(e, Exec(e, call), Exec(s, call), floor, cap);
  }

  lemma ConvertOnMore(e: Event, s: Event, cap: nat, a: nat, call: Call)
    requires WellFormed(e) && s == ShownEvent(e) && cap >= 1 && a > 0 && TailKnown(s.rows, cap)
    requires WellFormed(s) && Merges(s.rows) == [] && EachHolds(s.rows, a) && |Holdings(s.rows)| > 0
    requires TierOf(Holdings(s.rows), a, cap).questionIds != []
    requires call == TierConvert(TierOf(Holdings(s.rows), a, cap), |s.rows|).call
    ensures Valid(e, call) && Valid(s, call) && WellFormed(Exec(e, call)) && Exec(e, call).usdc == Exec(s, call).usdc
    ensures Exec(s, call).rows == ConvertFirstRows(s.rows, cap, a)
    ensures AllAlike(ShownRows(Exec(e, call).rows), Exec(s, call).rows)
  {
    ShownIsWellFormed(e);
    TierDecodes(s, cap, a);
    ConvertExec(s, cap, a);
    FirstMaskCovers(s.rows, cap, a);
    RunsOnMore(e, s, 0, call);
    SameStep(e, s, 0, call);
    StepKeepsWellFormed(e, StepOf(e.rows, call));
    ShownConvert(e.rows, s.rows, cap, a);
  }

  /** With a known tail, re-planning from a read after the first call gives exactly the rest. */
  lemma ShownHeadStep(e: Event, floor: int, cap: nat)
    requires WellFormed(e) && cap >= 1 && Calls(ShownEvent(e), floor, cap) != [] && TailKnown(ShownRows(e.rows), cap)
    ensures Valid(e, Calls(ShownEvent(e), floor, cap)[0].call)
    ensures ShownDone(e, Exec(e, Calls(ShownEvent(e), floor, cap)[0].call), floor, cap)
  {
    if Merges(ShownRows(e.rows)) != [] {
      ShownMerge(e, floor, cap);
    } else {
      ShownConvertCall(e, floor, cap);
    }
  }

  // ----- when the tail is known -----

  /** No more holdings than the cap: nothing lies past it. */
  lemma {:induction false} NarrowTailKnown(rows: seq<Row>, cap: nat)
    requires |Holdings(rows)| <= cap
    ensures TailKnown(rows, cap)
  {
    if rows != [] {
      NarrowTailKnown(rows[1..], CapLeft(rows, cap));
    }
  }

  lemma {:induction false} KnownTailKnown(rows: seq<Row>, cap: nat)
    requires forall i :: 0 <= i < |rows| ==> rows[i].leg.yesTokenId.Some?
    ensures TailKnown(rows, cap)
  {
    if rows != [] {
      assert forall i :: 0 <= i < |rows[1..]| ==> rows[1..][i] == rows[i + 1];
      KnownTailKnown(rows[1..], CapLeft(rows, cap));
    }
  }

  // ----- a whole wallet -----

  /** In every event, each holding past the cap has a known YES token id. */
  ghost predicate TailsKnown(w: seq<Event>, cap: nat) {
    forall i :: 0 <= i < |w| ==> TailKnown(ShownRows(w[i].rows), cap)
  }

  /** With every YES token id known, and with at most `cap` holdings an event, all tails are known. */
  lemma WhenTailsKnown(w: seq<Event>, cap: nat)
    requires forall i :: 0 <= i < |w| ==> YesKnown(LegsOf(w[i].rows)) || |Holdings(ShownRows(w[i].rows))| <= cap
    ensures TailsKnown(w, cap)
  {
    forall i | 0 <= i < |w| ensures TailKnown(ShownRows(w[i].rows), cap) {
      var rows := w[i].rows;
      if YesKnown(LegsOf(rows)) {
        forall k | 0 <= k < |rows| ensures ShownRows(rows)[k].leg.yesTokenId.Some? {
          assert LegsOf(rows)[k].yesTokenId.Some?;
        }
        KnownTailKnown(ShownRows(rows), cap);
      } else {
        NarrowTailKnown(ShownRows(rows), cap);
      }
    }
  }

  /** The wallet after the first call planned from a read: the rest is what a new read plans. */
  ghost predicate ShownHeadDone(w: seq<Event>, w': seq<Event>, floor: int, cap: nat)
    requires cap >= 1 && ShownCalls(w, floor, cap) != []
  {
    && |w'| == |w| && TailsKnown(w', cap)
    && ShownCalls(w', floor, cap) == ShownCalls(w, floor, cap)[1..]
    && SumUsdc(w') + SumProceeds(ShownWallet(w'), floor, cap) == SumUsdc(w) + SumProceeds(ShownWallet(w), floor, cap)
  }

  lemma ShownCons(e: Event, rest: seq<Event>, floor: int, cap: nat)
    requires cap >= 1
    ensures ShownCalls([e] + rest, floor, cap) == Calls(ShownEvent(e), floor, cap) + ShownCalls(rest, floor, cap)
    ensures SumUsdc([e] + rest) == e.usdc + SumUsdc(rest)
    ensures SumProceeds(ShownWallet([e] + rest), floor, cap)
         == Plan(ShownEvent(e), floor, cap).proceeds + SumProceeds(ShownWallet(rest), floor, cap)
    ensures TailsKnown([e] + rest, cap) <==> TailKnown(ShownRows(e.rows), cap) && TailsKnown(rest, cap)
  {
    var w := [e] + rest;
    assert w[0] == e && w[1..] == rest;
    assert ShownWallet(w) == [ShownEvent(e)] + ShownWallet(rest);
    ConsTotals(ShownEvent(e), ShownWallet(rest), floor, cap);
    assert forall i :: 0 <= i < |rest| ==> w[i + 1] == rest[i];
  }

  lemma ShownHeadHere(w: seq<Event>, floor: int, cap: nat)
    requires WalletOk(w) && TailsKnown(w, cap) && cap >= 1 && w != [] && Calls(ShownEvent(w[0]), floor, cap) != []
    ensures ShownCalls(w, floor, cap) != []
    ensures ValidW(w, ShownCalls(w, floor, cap)[0].call)
    ensures ShownHeadDone(w, ExecW(w, ShownCalls(w, floor, cap)[0].call), floor, cap)
  {
    var e, rest := w[0], w[1..];
    var calls := Calls(ShownEvent(e), floor, cap);
    assert w == [e] + rest;
    ShownCons(e, rest, floor, cap);
    ShownHeadStep(e, floor, cap);
    var e' := Exec(e, calls[0].call);
    OnlyHeadChanges(w, calls[0].call);
    ShownCons(e', rest, floor, cap);
    TailOfConcat(calls, ShownCalls(rest, floor, cap));
  }

  lemma ShownHeadLater(w: seq<Event>, floor: int, cap: nat, call: Call)
    requires WalletOk(w) && TailsKnown(w, cap) && cap >= 1 && w != [] && Calls(ShownEvent(w[0]), floor, cap) == []
    requires ShownCalls(w[1..], floor, cap) != [] && call == ShownCalls(w[1..], floor, cap)[0].call
    requires ValidW(w[1..], call) && ShownHeadDone(w[1..], ExecW(w[1..], call), floor, cap)
    ensures ShownCalls(w, floor, cap) == ShownCalls(w[1..], floor, cap)
    ensures ValidW(w, call) && ShownHeadDone(w, ExecW(w, call), floor, cap)
  {
    var e, rest := w[0], w[1..];
    assert w == [e] + rest;
    NotOwnedByHead(w, call);
    var w' := ExecW(w, call);
    assert w' == [e] + ExecW(rest, call);
    ShownCons(e, rest, floor, cap);
    ShownCons(e, ExecW(rest, call), floor, cap);
  }

  lemma {:induction false} ShownWalletHead(w: seq<Event>, floor: int, cap: nat)
    requires WalletOk(w) && TailsKnown(w, cap) && cap >= 1 && ShownCalls(w, floor, cap) != []
    ensures ValidW(w, ShownCalls(w, floor, cap)[0].call)
    ensures ShownHeadDone(w, ExecW(w, ShownCalls(w, floor, cap)[0].call), floor, cap)
  {
    if Calls(ShownEvent(w[0]), floor, cap) != [] {
      ShownHeadHere(w, floor, cap);
    } else {
      assert w == [w[0]] + w[1..];
      ShownCons(w[0], w[1..], floor, cap);
      WalletTail(w);
      ShownWalletHead(w[1..], floor, cap);
      ShownHeadLater(w, floor, cap, ShownCalls(w[1..], floor, cap)[0].call);
    }
  }

  /** Where a prefix of the calls planned from a read leaves the wallet. */
  ghost predicate ShownResumes(w: seq<Event>, w': seq<Event>, floor: int, cap: nat, k: nat)
    requires cap >= 1
  {
    && WalletOk(w') && TailsKnown(w', cap)
    && SumUsdc(w') + SumProceeds(ShownWallet(w'), floor, cap) == SumUsdc(w) + SumProceeds(ShownWallet(w), floor, cap)
    && k <= |ShownCalls(w, floor, cap)|
    && ShownCalls(w', floor, cap) == ShownCalls(w, floor, cap)[k..]
  }

  lemma ShownResumesTrans(w: seq<Event>, w1: seq<Event>, w2: seq<Event>, floor: int, cap: nat, k: nat, m: nat)
    requires cap >= 1 && ShownResumes(w, w1, floor, cap, k) && ShownResumes(w1, w2, floor, cap, m)
    ensures ShownResumes(w, w2, floor, cap, k + m)
  {
    SliceConcat(ShownCalls(w, floor, cap), k, m);
  }

  lemma ShownFirst(w: seq<Event>, floor: int, cap: nat) returns (w1: seq<Event>)
    requires WalletOk(w) && TailsKnown(w, cap) && cap >= 1 && ShownCalls(w, floor, cap) != []
    ensures w1 == ExecW(w, ShownCalls(w, floor, cap)[0].call) && ShownResumes(w, w1, floor, cap, 1)
  {
    w1 := ExecW(w, ShownCalls(w, floor, cap)[0].call);
    ShownWalletHead(w, floor, cap);
    ExecKeepsWallet(w, ShownCalls(w, floor, cap)[0].call);
  }

  lemma PrefixIsRun(w: seq<Event>, calls: seq<PlannedCall>, k: nat)
    requires 0 < k <= |calls|
    ensures ExecAllW(w, calls[..k]) == ExecAllW(ExecW(w, calls[0].call), calls[1..][..k - 1])
  {
    TakeFirst(calls, k);
    assert ([calls[0]] + calls[1..][..k - 1])[1..] == calls[1..][..k - 1];
  }

  /**
   * With known tails, after any prefix of the calls planned from a read, a new read plans exactly the
   * rest, freed plus planned collateral is what it was, and the tails are known again.
   */
  lemma {:induction false} ShownPrefix(w: seq<Event>, floor: int, cap: nat, k: nat)
    requires WalletOk(w) && TailsKnown(w, cap) && cap >= 1 && k <= |ShownCalls(w, floor, cap)|
    ensures ShownResumes(w, ExecAllW(w, ShownCalls(w, floor, cap)[..k]), floor, cap, k)
    decreases k
  {
    var calls := ShownCalls(w, floor, cap);
    if k == 0 {
      assert calls[..0] == [] && calls[0..] == calls;
    } else {
      var w1 := ShownFirst(w, floor, cap);
      ShownPrefix(w1, floor, cap, k - 1);
      PrefixIsRun(w, calls, k);
      ShownResumesTrans(w, w1, ExecAllW(w1, calls[1..][..k - 1]), floor, cap, 1, k - 1);
    }
  }

  // ----- optimality of what is planned from a read -----

  /** Nothing is lost to what the reads do not show, nor to legs that cannot be merged. */
  ghost predicate AllSeen(w: seq<Event>, cap: nat) {
    forall i :: 0 <= i < |w| ==>
      Recoverable(ShownRows(w[i].rows), cap) && TopNet(ShownRows(w[i].rows)) == TopNet(w[i].rows)
  }

  lemma ShownBound(e: Event, floor: int, cap: nat)
    requires WellFormed(e) && cap >= 1
    ensures Plan(ShownEvent(e), floor, cap).proceeds <= Freeable(e.rows)
    ensures Plan(ShownEvent(e), floor, cap).proceeds == Freeable(e.rows) <==>
      Recoverable(ShownRows(e.rows), cap) && TopNet(ShownRows(e.rows)) == TopNet(e.rows)
  {
    HiddenYesCost(e, floor, cap);
  }

  lemma AllSeenCons(w: seq<Event>, cap: nat)
    requires w != []
    ensures AllSeen(w, cap) <==>
      (Recoverable(ShownRows(w[0].rows), cap) && TopNet(ShownRows(w[0].rows)) == TopNet(w[0].rows))
      && AllSeen(w[1..], cap)
  {
    assert forall i :: 0 <= i < |w[1..]| ==> w[1..][i] == w[i + 1];
  }

  lemma {:induction false} ShownBounds(w: seq<Event>, floor: int, cap: nat)
    requires WalletOk(w) && cap >= 1
    ensures SumProceeds(ShownWallet(w), floor, cap) <= SumFreeable(w)
    ensures SumProceeds(ShownWallet(w), floor, cap) == SumFreeable(w) <==> AllSeen(w, cap)
  {
    if w != [] {
      WalletTail(w);
      assert w == [w[0]] + w[1..];
      ShownCons(w[0], w[1..], floor, cap);
      ShownBound(w[0], floor, cap);
      ShownBounds(w[1..], floor, cap);
      AllSeenCons(w, cap);
    }
  }

  /** The plans made from reads are beaten by no interleaving of steps if and only if nothing is lost to the reads. */
  lemma ShownPlansAreOptimalIff(w: seq<Event>, floor: int, cap: nat)
    requires WalletOk(w) && cap >= 1
    ensures NothingBeatsTogether(w, SumProceeds(ShownWallet(w), floor, cap)) <==> AllSeen(w, cap)
  {
    ShownBounds(w, floor, cap);
    NothingBeatsIff(w, SumProceeds(ShownWallet(w), floor, cap));
  }
}
