/**
 * Several events in one wallet. A call changes the one event it addresses, so the plan of all
 * jobs runs, resumes and frees exactly as the plans of its events do.
 */
module Wallet {
  import opened Base
  import opened Ledger
  import opened Planner
  import opened PlanSteps
  import opened Resume
  import opened Optimality

  ghost predicate HasCondition(e: Event, cid: Bytes32) {
    exists i :: 0 <= i < |e.rows| && e.rows[i].leg.conditionId == Some(cid)
  }

  /** Two events share neither a market nor a condition. */
  ghost predicate Apart(e: Event, f: Event) {
    e.market != f.market && forall cid :: !(HasCondition(e, cid) && HasCondition(f, cid))
  }

  ghost predicate WalletOk(w: seq<Event>) {
    && (forall i :: 0 <= i < |w| ==> WellFormed(w[i]))
    && forall i, j :: 0 <= i < j < |w| ==> Apart(w[i], w[j])
  }

  function WalletCalls(w: seq<Event>, floor: int, cap: nat): seq<PlannedCall>
    requires cap >= 1
  {
    if w == [] then [] else Calls(w[0], floor, cap) + WalletCalls(w[1..], floor, cap)
  }

  function SumUsdc(w: seq<Event>): int {
    if w == [] then 0 else w[0].usdc + SumUsdc(w[1..])
  }

  function SumProceeds(w: seq<Event>, floor: int, cap: nat): int {
    if w == [] then 0 else Plan(w[0], floor, cap).proceeds + SumProceeds(w[1..], floor, cap)
  }

  function SumFreeable(w: seq<Event>): int {
    if w == [] then 0 else Freeable(w[0].rows) + SumFreeable(w[1..])
  }

  /** The call's effect on one event; an event it does not address is left alone. */
  function ExecIn(e: Event, call: Call): Event {
    if Valid(e, call) then Exec(e, call) else e
  }

  function ExecW(w: seq<Event>, call: Call): (w': seq<Event>)
    ensures |w'| == |w| && forall i :: 0 <= i < |w| ==> w'[i] == ExecIn(w[i], call)
  {
    if w == [] then [] else [ExecIn(w[0], call)] + ExecW(w[1..], call)
  }

  /** The call is executable on the event it addresses. */
  predicate ValidW(w: seq<Event>, call: Call) {
    w != [] && (Valid(w[0], call) || ValidW(w[1..], call))
  }

  predicate AllValidW(w: seq<Event>, calls: seq<PlannedCall>)
    decreases |calls|
  {
    calls == [] || (ValidW(w, calls[0].call) && AllValidW(ExecW(w, calls[0].call), calls[1..]))
  }

  function ExecAllW(w: seq<Event>, calls: seq<PlannedCall>): seq<Event>
    decreases |calls|
  {
    if calls == [] then w else ExecAllW(ExecW(w, calls[0].call), calls[1..])
  }

  // ----- calls touch one event -----

  lemma OwnedHasCondition(e: Event, cid: Bytes32)
    ensures FindCondition(e.rows, cid) < |e.rows| <==> HasCondition(e, cid)
  {
    var i := FindCondition(e.rows, cid);
    if i < |e.rows| {
      assert e.rows[i].leg.conditionId == Some(cid);
    }
  }

  lemma ApartNotOwned(e: Event, f: Event, call: Call)
    requires Apart(e, f) && Owns(e, call)
    ensures !Owns(f, call)
  {
    if call.MergeCall? {
      OwnedHasCondition(e, call.conditionId);
      OwnedHasCondition(f, call.conditionId);
    }
  }

  lemma {:induction false} OthersUnchanged(w: seq<Event>, call: Call)
    requires forall i :: 0 <= i < |w| ==> !Owns(w[i], call)
    ensures ExecW(w, call) == w && !ValidW(w, call)
  {
    if w != [] {
      assert forall i :: 0 <= i < |w[1..]| ==> w[1..][i] == w[i + 1];
      OthersUnchanged(w[1..], call);
    }
  }

  lemma {:induction false} ValidOwner(w: seq<Event>, call: Call) returns (i: nat)
    requires ValidW(w, call)
    ensures i < |w| && Valid(w[i], call)
  {
    if Valid(w[0], call) {
      i := 0;
    } else {
      var k := ValidOwner(w[1..], call);
      i := k + 1;
    }
  }

  lemma ExecInKeeps(e: Event, call: Call)
    ensures ExecIn(e, call).market == e.market && |ExecIn(e, call).rows| == |e.rows|
    ensures forall i :: 0 <= i < |e.rows| ==> ExecIn(e, call).rows[i].leg == e.rows[i].leg
    ensures WellFormed(e) ==> WellFormed(ExecIn(e, call))
  {
    if Valid(e, call) && WellFormed(e) {
      StepKeepsWellFormed(e, StepOf(e.rows, call));
    }
  }

  lemma HasConditionLater(e: Event, call: Call, cid: Bytes32)
    requires HasCondition(ExecIn(e, call), cid)
    ensures HasCondition(e, cid)
  {
    ExecInKeeps(e, call);
    var e' := ExecIn(e, call);
    var i :| 0 <= i < |e'.rows| && e'.rows[i].leg.conditionId == Some(cid);
    assert e.rows[i].leg.conditionId == Some(cid);
  }

  lemma ApartLater(e: Event, f: Event, call: Call)
    requires Apart(e, f)
    ensures Apart(ExecIn(e, call), ExecIn(f, call))
  {
    ExecInKeeps(e, call);
    ExecInKeeps(f, call);
    forall cid | HasCondition(ExecIn(e, call), cid) ensures !HasCondition(ExecIn(f, call), cid) {
      HasConditionLater(e, call, cid);
      if HasCondition(ExecIn(f, call), cid) {
        HasConditionLater(f, call, cid);
      }
    }
  }

  lemma ExecKeepsWallet(w: seq<Event>, call: Call)
    requires WalletOk(w)
    ensures WalletOk(ExecW(w, call))
  {
    var w' := ExecW(w, call);
    forall i | 0 <= i < |w'| ensures WellFormed(w'[i]) {
      ExecInKeeps(w[i], call);
    }
    forall i, j | 0 <= i < j < |w'| ensures Apart(w'[i], w'[j]) {
      ApartLater(w[i], w[j], call);
    }
  }

  lemma WalletTail(w: seq<Event>)
    requires WalletOk(w) && w != []
    ensures WellFormed(w[0]) && WalletOk(w[1..])
    ensures forall i :: 0 <= i < |w[1..]| ==> Apart(w[0], w[1..][i])
  {
    assert forall i :: 0 <= i < |w[1..]| ==> w[1..][i] == w[i + 1];
  }

  lemma NotOwnedByTail(w: seq<Event>, call: Call)
    requires WalletOk(w) && w != [] && Owns(w[0], call)
    ensures forall i :: 0 <= i < |w[1..]| ==> !Owns(w[1..][i], call)
  {
    WalletTail(w);
    forall i | 0 <= i < |w[1..]| ensures !Owns(w[1..][i], call) {
      ApartNotOwned(w[0], w[1..][i], call);
    }
  }

  // ----- the first call of a wallet -----

  /** The wallet after its first planned call: still well formed, its plan the rest of the plan. */
  ghost predicate WalletHeadDone(w: seq<Event>, w': seq<Event>, floor: int, cap: nat)
    requires cap >= 1 && WalletCalls(w, floor, cap) != []
  {
    && |w'| == |w|
    && WalletCalls(w', floor, cap) == WalletCalls(w, floor, cap)[1..]
    && SumUsdc(w') + SumProceeds(w', floor, cap) == SumUsdc(w) + SumProceeds(w, floor, cap)
  }

  lemma ConsTotals(e: Event, rest: seq<Event>, floor: int, cap: nat)
    requires cap >= 1
    ensures WalletCalls([e] + rest, floor, cap) == Calls(e, floor, cap) + WalletCalls(rest, floor, cap)
    ensures SumUsdc([e] + rest) == e.usdc + SumUsdc(rest)
    ensures SumProceeds([e] + rest, floor, cap) == Plan(e, floor, cap).proceeds + SumProceeds(rest, floor, cap)
  {
    assert ([e] + rest)[1..] == rest;
  }

  lemma OnlyHeadChanges(w: seq<Event>, call: Call)
    requires WalletOk(w) && w != [] && Valid(w[0], call)
    ensures ValidW(w, call) && ExecW(w, call) == [Exec(w[0], call)] + w[1..]
  {
    NotOwnedByTail(w, call);
    OthersUnchanged(w[1..], call);
  }

  lemma HeadHere(w: seq<Event>, floor: int, cap: nat)
    requires WalletOk(w) && cap >= 1 && w != [] && Calls(w[0], floor, cap) != []
    ensures WalletCalls(w, floor, cap) != []
    ensures ValidW(w, WalletCalls(w, floor, cap)[0].call)
    ensures WalletHeadDone(w, ExecW(w, WalletCalls(w, floor, cap)[0].call), floor, cap)
  {
    var e, rest := w[0], w[1..];
    var calls := Calls(e, floor, cap);
    assert w == [e] + rest;
    HeadStep(e, floor, cap);
    var e' := Exec(e, calls[0].call);
    OnlyHeadChanges(w, calls[0].call);
    ConsTotals(e, rest, floor, cap);
    ConsTotals(e', rest, floor, cap);
    TailOfConcat(calls, WalletCalls(rest, floor, cap));
  }

  lemma NotOwnedByHead(w: seq<Event>, call: Call)
    requires WalletOk(w) && w != [] && ValidW(w[1..], call)
    ensures !Owns(w[0], call)
  {
    WalletTail(w);
    var k := ValidOwner(w[1..], call);
    if Owns(w[0], call) {
      ApartNotOwned(w[0], w[1..][k], call);
    }
  }

  lemma {:induction false} WalletHead(w: seq<Event>, floor: int, cap: nat)
    requires WalletOk(w) && cap >= 1 && WalletCalls(w, floor, cap) != []
    ensures ValidW(w, WalletCalls(w, floor, cap)[0].call)
    ensures WalletHeadDone(w, ExecW(w, WalletCalls(w, floor, cap)[0].call), floor, cap)
  {
    if Calls(w[0], floor, cap) != [] {
      HeadHere(w, floor, cap);
    } else {
      var later := WalletCalls(w[1..], floor, cap);
      assert WalletCalls(w, floor, cap) == [] + later == later;
      WalletTail(w);
      WalletHead(w[1..], floor, cap);
      var call := later[0].call;
      NotOwnedByHead(w, call);
      var w' := ExecW(w, call);
      assert w'[0] == w[0] && w'[1..] == ExecW(w[1..], call);
      assert WalletCalls(w', floor, cap) == [] + later[1..] == later[1..];
    }
  }

  // ----- runs -----

  /** `w'` is what `w` becomes after the first `k` calls of its plan. */
  ghost predicate ReachedAt(w: seq<Event>, w': seq<Event>, floor: int, cap: nat, k: nat)
    requires cap >= 1
  {
    k <= |WalletCalls(w, floor, cap)| && w' == ExecAllW(w, WalletCalls(w, floor, cap)[..k])
  }

  /** Some prefix of the plan has been executed, and nothing else. */
  ghost predicate Reached(w: seq<Event>, w': seq<Event>, floor: int, cap: nat)
    requires cap >= 1
  {
    exists k: nat :: ReachedAt(w, w', floor, cap, k)
  }

  /** What a prefix of the plan leaves: a wallet whose own plan is the rest of it, freed plus planned kept. */
  ghost predicate Resumes(w: seq<Event>, w': seq<Event>, floor: int, cap: nat, k: nat)
    requires cap >= 1
  {
    && WalletOk(w') && |w'| == |w|
    && SumUsdc(w') + SumProceeds(w', floor, cap) == SumUsdc(w) + SumProceeds(w, floor, cap)
    && k <= |WalletCalls(w, floor, cap)|
    && WalletCalls(w', floor, cap) == WalletCalls(w, floor, cap)[k..]
  }

  lemma ResumesStep(w: seq<Event>, floor: int, cap: nat)
    requires WalletOk(w) && cap >= 1 && WalletCalls(w, floor, cap) != []
    ensures ValidW(w, WalletCalls(w, floor, cap)[0].call)
    ensures Resumes(w, ExecW(w, WalletCalls(w, floor, cap)[0].call), floor, cap, 1)
  {
    WalletHead(w, floor, cap);
    ExecKeepsWallet(w, WalletCalls(w, floor, cap)[0].call);
  }

  lemma ResumesTrans(w: seq<Event>, w1: seq<Event>, w2: seq<Event>, floor: int, cap: nat, k: nat, m: nat)
    requires cap >= 1 && Resumes(w, w1, floor, cap, k) && Resumes(w1, w2, floor, cap, m)
    ensures Resumes(w, w2, floor, cap, k + m)
  {
    SliceConcat(WalletCalls(w, floor, cap), k, m);
  }

  lemma RunCons(w: seq<Event>, first: PlannedCall, rest: seq<PlannedCall>)
    requires ValidW(w, first.call) && AllValidW(ExecW(w, first.call), rest)
    ensures AllValidW(w, [first] + rest)
    ensures ExecAllW(w, [first] + rest) == ExecAllW(ExecW(w, first.call), rest)
  {
    assert ([first] + rest)[1..] == rest;
  }

  /** A first call that resumes at `w1`, and a run from there: the run of both. */
  lemma PrefixStep(w: seq<Event>, w1: seq<Event>, floor: int, cap: nat, k: nat)
    requires cap >= 1 && 0 < k <= |WalletCalls(w, floor, cap)| && Resumes(w, w1, floor, cap, 1)
    requires ValidW(w, WalletCalls(w, floor, cap)[0].call) && w1 == ExecW(w, WalletCalls(w, floor, cap)[0].call)
    requires AllValidW(w1, WalletCalls(w1, floor, cap)[..k - 1])
    ensures AllValidW(w, WalletCalls(w, floor, cap)[..k])
    ensures ExecAllW(w, WalletCalls(w, floor, cap)[..k]) == ExecAllW(w1, WalletCalls(w1, floor, cap)[..k - 1])
  {
    var calls := WalletCalls(w, floor, cap);
    TakeFirst(calls, k);
    RunCons(w, calls[0], calls[1..][..k - 1]);
  }

  /** Any prefix of the wallet's plan is executable and leaves exactly the rest to be planned. */
  lemma {:induction false} WalletPrefix(w: seq<Event>, floor: int, cap: nat, k: nat)
    requires WalletOk(w) && cap >= 1 && k <= |WalletCalls(w, floor, cap)|
    ensures AllValidW(w, WalletCalls(w, floor, cap)[..k])
    ensures Resumes(w, ExecAllW(w, WalletCalls(w, floor, cap)[..k]), floor, cap, k)
    decreases k
  {
    if k > 0 {
      ResumesStep(w, floor, cap);
      var w1 := ExecW(w, WalletCalls(w, floor, cap)[0].call);
      WalletPrefix(w1, floor, cap, k - 1);
      PrefixStep(w, w1, floor, cap, k);
      ResumesTrans(w, w1, ExecAllW(w1, WalletCalls(w1, floor, cap)[..k - 1]), floor, cap, 1, k - 1);
    }
  }

  lemma {:induction false} RunConcat(w: seq<Event>, first: seq<PlannedCall>, rest: seq<PlannedCall>)
    ensures ExecAllW(w, first + rest) == ExecAllW(ExecAllW(w, first), rest)
    decreases |first|
  {
    if first == [] {
      assert first + rest == rest;
    } else {
      RunConcat(ExecW(w, first[0].call), first[1..], rest);
      TailOfConcat(first, rest);
    }
  }

  lemma {:induction false} RunSplit(w: seq<Event>, first: seq<PlannedCall>, rest: seq<PlannedCall>)
    ensures AllValidW(w, first + rest) <==> AllValidW(w, first) && AllValidW(ExecAllW(w, first), rest)
    decreases |first|
  {
    if first == [] {
      assert first + rest == rest;
    } else {
      TailOfConcat(first, rest);
      RunSplit(ExecW(w, first[0].call), first[1..], rest);
    }
  }

  lemma {:induction false} RunKeepsWallet(w: seq<Event>, calls: seq<PlannedCall>)
    requires WalletOk(w)
    ensures WalletOk(ExecAllW(w, calls))
    decreases |calls|
  {
    if calls != [] {
      ExecKeepsWallet(w, calls[0].call);
      RunKeepsWallet(ExecW(w, calls[0].call), calls[1..]);
    }
  }

  lemma ReachedAtTrans(w: seq<Event>, w1: seq<Event>, w2: seq<Event>, floor: int, cap: nat, k: nat, m: nat)
    requires WalletOk(w) && cap >= 1 && ReachedAt(w, w1, floor, cap, k) && ReachedAt(w1, w2, floor, cap, m)
    ensures ReachedAt(w, w2, floor, cap, k + m)
  {
    var calls := WalletCalls(w, floor, cap);
    WalletPrefix(w, floor, cap, k);
    SliceConcat(calls, k, m);
    RunConcat(w, calls[..k], calls[k..][..m]);
  }

  lemma ReachedTrans(w: seq<Event>, w1: seq<Event>, w2: seq<Event>, floor: int, cap: nat)
    requires WalletOk(w) && cap >= 1 && Reached(w, w1, floor, cap) && Reached(w1, w2, floor, cap)
    ensures Reached(w, w2, floor, cap)
  {
    var k: nat :| ReachedAt(w, w1, floor, cap, k);
    var m: nat :| ReachedAt(w1, w2, floor, cap, m);
    ReachedAtTrans(w, w1, w2, floor, cap, k, m);
  }

  lemma {:induction false} NothingLeftNoProceeds(w: seq<Event>, floor: int, cap: nat)
    requires cap >= 1 && WalletCalls(w, floor, cap) == []
    ensures SumProceeds(w, floor, cap) == 0
  {
    if w != [] {
      NoCallsNoProceeds(w[0], floor, cap);
      NothingLeftNoProceeds(w[1..], floor, cap);
    }
  }

  ghost predicate AllRecoverable(w: seq<Event>, cap: nat) {
    forall i :: 0 <= i < |w| ==> Recoverable(w[i].rows, cap)
  }

  lemma {:induction false} ProceedsMeetBounds(w: seq<Event>, floor: int, cap: nat)
    requires WalletOk(w) && cap >= 1
    ensures SumProceeds(w, floor, cap) <= SumFreeable(w)
    ensures SumProceeds(w, floor, cap) == SumFreeable(w) <==> AllRecoverable(w, cap)
  {
    if w != [] {
      WalletTail(w);
      ProceedsMeetBound(w[0], floor, cap);
      ProceedsMeetBounds(w[1..], floor, cap);
      assert forall i :: 0 <= i < |w[1..]| ==> w[1..][i] == w[i + 1];
    }
  }

  /** A run that ends with nothing left to plan has freed the plan of the initial balances. */
  lemma FinishedRunFrees(w: seq<Event>, w': seq<Event>, floor: int, cap: nat)
    requires WalletOk(w) && cap >= 1 && Reached(w, w', floor, cap) && WalletCalls(w', floor, cap) == []
    ensures SumUsdc(w') - SumUsdc(w) == SumProceeds(w, floor, cap)
  {
    var k: nat :| ReachedAt(w, w', floor, cap, k);
    WalletPrefix(w, floor, cap, k);
    NothingLeftNoProceeds(w', floor, cap);
  }

  lemma {:induction false} RunKeepsWorth(w: seq<Event>, calls: seq<PlannedCall>, i: nat, leg: nat)
    requires i < |w| && leg < |w[i].rows|
    ensures |ExecAllW(w, calls)| == |w| && |ExecAllW(w, calls)[i].rows| == |w[i].rows|
    ensures Worth(ExecAllW(w, calls)[i], leg) == Worth(w[i], leg)
    decreases |calls|
  {
    if calls != [] {
      var call := calls[0].call;
      ExecInKeeps(w[i], call);
      if Valid(w[i], call) {
        WorthConserved(w[i], StepOf(w[i].rows, call), leg);
      }
      RunKeepsWorth(ExecW(w, call), calls[1..], i, leg);
    }
  }

  /** Some executable calls lead from one state of the wallet to the other. */
  ghost predicate Executed(w: seq<Event>, w': seq<Event>) {
    exists calls :: AllValidW(w, calls) && w' == ExecAllW(w, calls)
  }

  lemma ExecutedTrans(w: seq<Event>, w1: seq<Event>, w2: seq<Event>)
    requires Executed(w, w1) && Executed(w1, w2)
    ensures Executed(w, w2)
  {
    var first :| AllValidW(w, first) && w1 == ExecAllW(w, first);
    var rest :| AllValidW(w1, rest) && w2 == ExecAllW(w1, rest);
    RunSplit(w, first, rest);
    RunConcat(w, first, rest);
  }

  /** Wherever executable calls lead, each event is worth what it was, whichever leg wins. */
  lemma ExecutedKeepsWorth(w: seq<Event>, w': seq<Event>, i: nat, leg: nat)
    requires Executed(w, w') && i < |w| && leg < |w[i].rows|
    ensures |w'| == |w| && |w'[i].rows| == |w[i].rows| && Worth(w'[i], leg) == Worth(w[i], leg)
  {
    var calls :| AllValidW(w, calls) && w' == ExecAllW(w, calls);
    RunKeepsWorth(w, calls, i, leg);
  }
}
