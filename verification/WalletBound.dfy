/**
 * How much a whole wallet can free. Collateral is one pot, so a split on one event may be paid with
 * what another has freed; still no interleaving of steps frees more than the events' bounds
 * together, and some interleaving frees exactly that.
 */
module WalletBound {
  import opened Base
  import opened Ledger
  import opened Planner
  import opened PlanSteps
  import opened Optimality
  import opened Wallet

  /** A step on one event of the wallet. */
  datatype Move = Move(event: nat, step: Step)

  /** An event with that much more collateral at hand. */
  function Lent(e: Event, extra: int): Event {
    Event(e.market, e.rows, e.usdc + extra)
  }

  /** The collateral freed on all other events. */
  function Elsewhere(w: seq<Event>, i: nat): int
    requires i < |w|
  {
    SumUsdc(w) - w[i].usdc
  }

  predicate CanMove(w: seq<Event>, m: Move) {
    m.event < |w| && CanStep(Lent(w[m.event], Elsewhere(w, m.event)), m.step)
  }

  /** The step is taken with the whole pot; what the other events freed stays theirs. */
  function Moved(w: seq<Event>, m: Move): seq<Event>
    requires CanMove(w, m)
  {
    var pot := Elsewhere(w, m.event);
    w[m.event := Lent(Apply(Lent(w[m.event], pot), m.step), -pot)]
  }

  predicate CanMoveAll(w: seq<Event>, moves: seq<Move>)
    decreases |moves|
  {
    moves == [] || (CanMove(w, moves[0]) && CanMoveAll(Moved(w, moves[0]), moves[1..]))
  }

  function MovedAll(w: seq<Event>, moves: seq<Move>): seq<Event>
    requires CanMoveAll(w, moves)
    decreases |moves|
  {
    if moves == [] then w else MovedAll(Moved(w, moves[0]), moves[1..])
  }

  /** A split needs no more than the collateral of the whole wallet. */
  lemma SplitIsPaidFromPot(w: seq<Event>, i: nat, leg: nat, amount: nat)
    requires i < |w| && leg < |w[i].rows|
    ensures CanMove(w, Move(i, Split(leg, amount))) <==> amount <= SumUsdc(w)
  {
  }

  // ----- the bound -----

  lemma {:induction false} SumsUpdate(w: seq<Event>, i: nat, e: Event)
    requires i < |w|
    ensures SumUsdc(w[i := e]) == SumUsdc(w) - w[i].usdc + e.usdc
    ensures SumFreeable(w[i := e]) == SumFreeable(w) - Freeable(w[i].rows) + Freeable(e.rows)
  {
    var w' := w[i := e];
    if i == 0 {
      assert w'[1..] == w[1..];
    } else {
      assert w'[1..] == w[1..][i - 1 := e];
      SumsUpdate(w[1..], i - 1, e);
    }
  }

  lemma MoveNeverGains(w: seq<Event>, m: Move)
    requires CanMove(w, m)
    ensures SumUsdc(Moved(w, m)) + SumFreeable(Moved(w, m)) <= SumUsdc(w) + SumFreeable(w)
  {
    var pot := Elsewhere(w, m.event);
    var e := Lent(w[m.event], pot);
    StepNeverGains(e, m.step);
    SumsUpdate(w, m.event, Lent(Apply(e, m.step), -pot));
  }

  lemma {:induction false} SumFreeableIsNonNegative(w: seq<Event>)
    ensures SumFreeable(w) >= 0
  {
    if w != [] {
      FreeableIsNonNegative(w[0].rows);
      SumFreeableIsNonNegative(w[1..]);
    }
  }

  /** No interleaving of merges, splits and converts frees more than the events' bounds together. */
  lemma {:induction false} NothingFreesMoreTogether(w: seq<Event>, moves: seq<Move>)
    requires CanMoveAll(w, moves)
    ensures SumUsdc(MovedAll(w, moves)) - SumUsdc(w) <= SumFreeable(w)
    decreases |moves|
  {
    if moves == [] {
      SumFreeableIsNonNegative(w);
    } else {
      MoveNeverGains(w, moves[0]);
      NothingFreesMoreTogether(Moved(w, moves[0]), moves[1..]);
    }
  }

  // ----- the bound is attained -----

  lemma MoveIsStep(w: seq<Event>, i: nat, s: Step)
    requires i < |w| && !s.Split? && CanStep(w[i], s)
    ensures CanMove(w, Move(i, s)) && Moved(w, Move(i, s)) == w[i := Apply(w[i], s)]
  {
    var pot := Elsewhere(w, i);
    assert Lent(Apply(Lent(w[i], pot), s), -pot) == Apply(w[i], s);
  }

  lemma {:induction false} RunOnEvent(w: seq<Event>, i: nat, steps: seq<Step>) returns (moves: seq<Move>)
    requires i < |w| && CanRun(w[i], steps)
    requires forall k :: 0 <= k < |steps| ==> !steps[k].Split?
    ensures CanMoveAll(w, moves) && MovedAll(w, moves) == w[i := RunSteps(w[i], steps)]
    decreases |steps|
  {
    if steps == [] {
      moves := [];
      assert w[i := w[i]] == w;
    } else {
      MoveIsStep(w, i, steps[0]);
      var w1 := w[i := Apply(w[i], steps[0])];
      var rest := RunOnEvent(w1, i, steps[1..]);
      moves := [Move(i, steps[0])] + rest;
      assert moves[1..] == rest;
      assert w1[i := RunSteps(w1[i], steps[1..])] == w[i := RunSteps(w[i], steps)];
    }
  }

  lemma {:induction false} MovesConcat(w: seq<Event>, a: seq<Move>, b: seq<Move>)
    requires CanMoveAll(w, a) && CanMoveAll(MovedAll(w, a), b)
    ensures CanMoveAll(w, a + b) && MovedAll(w, a + b) == MovedAll(MovedAll(w, a), b)
    decreases |a|
  {
    if a == [] {
      assert a + b == b;
    } else {
      assert (a + b)[0] == a[0] && (a + b)[1..] == a[1..] + b;
      MovesConcat(Moved(w, a[0]), a[1..], b);
    }
  }

  lemma {:induction false} FreeableOfFirst(w: seq<Event>, n: nat)
    requires n < |w|
    ensures SumFreeable(w[..n + 1]) == SumFreeable(w[..n]) + Freeable(w[n].rows)
  {
    if n == 0 {
      assert w[..1] == [w[0]] && w[..0] == [];
    } else {
      FreeableOfFirst(w[1..], n - 1);
      assert w[..n + 1][1..] == w[1..][..n] && w[..n][1..] == w[1..][..n - 1];
    }
  }

  /** Freeing all there is on the first `n` events, the others untouched. */
  lemma {:induction false} FreeFirst(w: seq<Event>, n: nat) returns (moves: seq<Move>)
    requires n <= |w|
    ensures CanMoveAll(w, moves)
    ensures var w' := MovedAll(w, moves);
      && |w'| == |w| && (forall j :: n <= j < |w| ==> w'[j] == w[j])
      && SumUsdc(w') == SumUsdc(w) + SumFreeable(w[..n])
    decreases n
  {
    if n == 0 {
      moves := [];
      assert w[..0] == [];
    } else {
      var first := FreeFirst(w, n - 1);
      var w1 := MovedAll(w, first);
      var steps := BoundIsAttained(w1[n - 1]);
      var last := RunOnEvent(w1, n - 1, steps);
      moves := first + last;
      MovesConcat(w, first, last);
      SumsUpdate(w1, n - 1, RunSteps(w1[n - 1], steps));
      FreeableOfFirst(w, n - 1);
    }
  }

  /** Whether no interleaving of steps frees more than `freed`. */
  ghost predicate NothingBeatsTogether(w: seq<Event>, freed: int) {
    forall moves :: CanMoveAll(w, moves) ==> SumUsdc(MovedAll(w, moves)) - SumUsdc(w) <= freed
  }

  /** What nothing beats is exactly what reaches the events' bounds together. */
  lemma NothingBeatsIff(w: seq<Event>, freed: int)
    ensures NothingBeatsTogether(w, freed) <==> freed >= SumFreeable(w)
  {
    forall moves | CanMoveAll(w, moves) ensures SumUsdc(MovedAll(w, moves)) - SumUsdc(w) <= SumFreeable(w) {
      NothingFreesMoreTogether(w, moves);
    }
    var best := FreeFirst(w, |w|);
    assert w[..|w|] == w;
    assert CanMoveAll(w, best);
  }

  /** Nothing beats the plans of a wallet, taken together, if and only if every event is recoverable. */
  lemma PlansAreOptimalIff(w: seq<Event>, floor: int, cap: nat)
    requires WalletOk(w) && cap >= 1
    ensures NothingBeatsTogether(w, SumProceeds(w, floor, cap)) <==> AllRecoverable(w, cap)
  {
    ProceedsMeetBounds(w, floor, cap);
    NothingBeatsIff(w, SumProceeds(w, floor, cap));
  }

  /**
   * A run that ends with nothing left to plan has freed the plan of the initial balances. No
   * interleaving of steps over all events could have freed more, if and only if every event is recoverable.
   */
  lemma FinishedRunIsOptimal(w: seq<Event>, w': seq<Event>, floor: int, cap: nat, freed: int)
    requires WalletOk(w) && cap >= 1 && Reached(w, w', floor, cap) && WalletCalls(w', floor, cap) == []
    requires freed == SumUsdc(w') - SumUsdc(w)
    ensures freed == SumProceeds(w, floor, cap)
    ensures NothingBeatsTogether(w, freed) <==> AllRecoverable(w, cap)
  {
    FinishedRunFrees(w, w', floor, cap);
    PlansAreOptimalIff(w, floor, cap);
  }
}
