/**
 * What a page-set comes to, read off its rows: which conditions are grouped and in which order, what
 * each group takes from which row, which conditions are redeemed, and through which contract.
 */
module RedeemRows {
  import opened Base
  import opened DataPager
  import opened Redeem
  import opened RedeemDrain
  import opened RedeemPass

  /** The `i`-th row parses and is the condition's. */
  predicate RowOf(rows: seq<Position>, i: nat, cid: Bytes32) {
    i < |rows| && rows[i].token.Some? && rows[i].conditionId == Some(cid)
  }

  ghost predicate Reported(rows: seq<Position>, cid: Bytes32) {
    exists i: nat :: RowOf(rows, i, cid)
  }

  ghost predicate FirstRowOf(rows: seq<Position>, i: nat, cid: Bytes32) {
    RowOf(rows, i, cid) && forall j: nat :: j < i ==> !RowOf(rows, j, cid)
  }

  /** The `i`-th row is the condition's and gives this outcome. */
  predicate SideRowOf(rows: seq<Position>, i: nat, cid: Bytes32, yes: bool) {
    RowOf(rows, i, cid) && rows[i].outcome == if yes then Yes else No
  }

  ghost predicate ReportsSide(rows: seq<Position>, cid: Bytes32, yes: bool) {
    exists i: nat :: SideRowOf(rows, i, cid, yes)
  }

  ghost predicate LastSideRowOf(rows: seq<Position>, i: nat, cid: Bytes32, yes: bool) {
    SideRowOf(rows, i, cid, yes) && forall j: nat :: i < j ==> !SideRowOf(rows, j, cid, yes)
  }

  function TokenOf(g: RedeemGroup, yes: bool): Option<nat> {
    if yes then g.yesToken else g.noToken
  }

  // ----- one row more -----

  lemma RowOfFront(rows: seq<Position>, i: nat, cid: Bytes32)
    requires rows != []
    ensures RowOf(rows, i, cid) <==>
      RowOf(rows[..|rows| - 1], i, cid) || (i == |rows| - 1 && RowOf(rows, |rows| - 1, cid))
  {
  }

  lemma SideRowOfFront(rows: seq<Position>, i: nat, cid: Bytes32, yes: bool)
    requires rows != []
    ensures SideRowOf(rows, i, cid, yes) <==>
      SideRowOf(rows[..|rows| - 1], i, cid, yes) || (i == |rows| - 1 && SideRowOf(rows, |rows| - 1, cid, yes))
  {
  }

  /** Finding a condition after one more row: where it was, or behind all when the row is its first. */
  lemma FoundAfter(groups: seq<RedeemGroup>, p: Position, cid: Bytes32)
    ensures var i, j := FindGroup(groups, cid), FindGroup(AddRow(groups, p), cid);
      var own := p.token.Some? && p.conditionId == Some(cid);
      && (i < |groups| ==> j == i)
      && (i == |groups| && own ==> j == i && |AddRow(groups, p)| == i + 1)
      && (i == |groups| && !own ==> j == |AddRow(groups, p)|)
      && |groups| <= |AddRow(groups, p)|
  {
    var more := AddRow(groups, p);
    var i, j := FindGroup(groups, cid), FindGroup(more, cid);
    if p.token.Some? && p.conditionId.Some? {
      assert forall m :: 0 <= m < |groups| ==> more[m].conditionId == groups[m].conditionId;
      if i < |groups| {
        assert more[i].conditionId == cid;
      } else if j < |more| {
        assert j == |groups|;
      }
      if i == |groups| && p.conditionId.value == cid {
        assert more[i].conditionId == cid;
      }
    }
  }

  /** What the group of a condition takes from one more row. */
  lemma GroupAfter(groups: seq<RedeemGroup>, p: Position, cid: Bytes32, yes: bool)
    requires FindGroup(AddRow(groups, p), cid) < |AddRow(groups, p)|
    ensures var i, g := FindGroup(groups, cid), AddRow(groups, p)[FindGroup(AddRow(groups, p), cid)];
      var own := p.token.Some? && p.conditionId == Some(cid);
      && (i < |groups| ==> g.negRisk == groups[i].negRisk)
      && (i == |groups| ==> g.negRisk == p.negativeRisk)
      && TokenOf(g, yes) == (if own && p.outcome == (if yes then Yes else No) then p.token
                             else if i < |groups| then TokenOf(groups[i], yes) else None)
  {
    FoundAfter(groups, p, cid);
  }

  // ----- the groups -----

  lemma {:induction false} GroupedIffReported(rows: seq<Position>, cid: Bytes32)
    ensures FindGroup(Groups(rows), cid) < |Groups(rows)| <==> Reported(rows, cid)
  {
    if rows != [] {
      var front, last := rows[..|rows| - 1], |rows| - 1;
      GroupedIffReported(front, cid);
      FoundAfter(Groups(front), rows[last], cid);
      if Reported(rows, cid) {
        var i: nat :| RowOf(rows, i, cid);
        RowOfFront(rows, i, cid);
      }
      if Reported(front, cid) {
        var i: nat :| RowOf(front, i, cid);
        RowOfFront(rows, i, cid);
      }
      if RowOf(rows, last, cid) {
        assert Reported(rows, cid);
      }
    }
  }

  /** A group is of the kind its condition's first row gives. */
  lemma {:induction false} KindOfFirstRow(rows: seq<Position>, cid: Bytes32, i: nat)
    requires FirstRowOf(rows, i, cid)
    ensures FindGroup(Groups(rows), cid) < |Groups(rows)|
    ensures Groups(rows)[FindGroup(Groups(rows), cid)].negRisk == rows[i].negativeRisk
  {
    var front, last := rows[..|rows| - 1], |rows| - 1;
    GroupedIffReported(rows, cid);
    GroupedIffReported(front, cid);
    GroupAfter(Groups(front), rows[last], cid, true);
    if i < last {
      RowOfFront(rows, i, cid);
      forall j: nat | j < i ensures !RowOf(front, j, cid) {
        RowOfFront(rows, j, cid);
      }
      KindOfFirstRow(front, cid, i);
      assert Reported(front, cid);
    } else if Reported(front, cid) {
      var j: nat :| RowOf(front, j, cid);
      RowOfFront(rows, j, cid);
    }
  }

  /** A group's token of a side is the one its condition's last row of that side gives. */
  lemma {:induction false} TokenOfLastRow(rows: seq<Position>, cid: Bytes32, yes: bool, i: nat)
    requires LastSideRowOf(rows, i, cid, yes)
    ensures FindGroup(Groups(rows), cid) < |Groups(rows)|
    ensures TokenOf(Groups(rows)[FindGroup(Groups(rows), cid)], yes) == rows[i].token
  {
    var front, last := rows[..|rows| - 1], |rows| - 1;
    GroupedIffReported(rows, cid);
    GroupAfter(Groups(front), rows[last], cid, yes);
    if i < last {
      assert !SideRowOf(rows, last, cid, yes);
      SideRowOfFront(rows, i, cid, yes);
      forall j: nat | i < j ensures !SideRowOf(front, j, cid, yes) {
        SideRowOfFront(rows, j, cid, yes);
      }
      TokenOfLastRow(front, cid, yes, i);
    }
  }

  /** A group has a token exactly of the sides its condition's rows give. */
  lemma {:induction false} TokenIffReported(rows: seq<Position>, cid: Bytes32, yes: bool)
    ensures ReportsSide(rows, cid, yes) <==>
      var g := FindGroup(Groups(rows), cid); g < |Groups(rows)| && TokenOf(Groups(rows)[g], yes).Some?
  {
    if rows != [] {
      var front, last := rows[..|rows| - 1], |rows| - 1;
      TokenIffReported(front, cid, yes);
      FoundAfter(Groups(front), rows[last], cid);
      if FindGroup(Groups(rows), cid) < |Groups(rows)| {
        GroupAfter(Groups(front), rows[last], cid, yes);
      }
      if ReportsSide(rows, cid, yes) {
        var i: nat :| SideRowOf(rows, i, cid, yes);
        SideRowOfFront(rows, i, cid, yes);
      }
      if ReportsSide(front, cid, yes) {
        var i: nat :| SideRowOf(front, i, cid, yes);
        SideRowOfFront(rows, i, cid, yes);
      }
      if SideRowOf(rows, last, cid, yes) {
        assert ReportsSide(rows, cid, yes);
      }
    }
  }

  /** Conditions are grouped in the order of their first rows. */
  lemma {:induction false} GroupedInOrder(rows: seq<Position>, c: Bytes32, d: Bytes32, i: nat, j: nat)
    requires FirstRowOf(rows, i, c) && FirstRowOf(rows, j, d) && i < j
    ensures FindGroup(Groups(rows), c) < FindGroup(Groups(rows), d)
  {
    var front, last := rows[..|rows| - 1], |rows| - 1;
    GroupedIffReported(front, c);
    GroupedIffReported(front, d);
    FoundAfter(Groups(front), rows[last], c);
    FoundAfter(Groups(front), rows[last], d);
    RowOfFront(rows, i, c);
    assert Reported(front, c);
    if j < last {
      RowOfFront(rows, j, d);
      assert Reported(front, d);
      forall m: nat | m < i ensures !RowOf(front, m, c) {
        RowOfFront(rows, m, c);
      }
      forall m: nat | m < j ensures !RowOf(front, m, d) {
        RowOfFront(rows, m, d);
      }
      GroupedInOrder(front, c, d, i, j);
    } else if Reported(front, d) {
      var m: nat :| RowOf(front, m, d);
      RowOfFront(rows, m, d);
    }
  }

  // ----- the calls -----

  /** What the wallet holds of the condition's reported sides. */
  ghost function ReportedHeld(k: Tokens, rows: seq<Position>, bal: Balances, cid: Bytes32): nat {
    (if ReportsSide(rows, cid, true) then At(bal, k.yesOf(cid)) else 0)
    + (if ReportsSide(rows, cid, false) then At(bal, k.noOf(cid)) else 0)
  }

  /** The calls an uncapped pass over these rows sends. */
  function CallsFor(rows: seq<Position>, bal: Balances, minRaw: int): seq<RedeemCall> {
    CallsOf(Redemptions(Groups(rows), bal, minRaw))
  }

  ghost predicate Planned(rows: seq<Position>, bal: Balances, minRaw: int, cid: Bytes32) {
    exists m :: 0 <= m < |CallsFor(rows, bal, minRaw)| && CallsFor(rows, bal, minRaw)[m].conditionId == cid
  }

  lemma HeldOfGroup(k: Tokens, rows: seq<Position>, bal: Balances, g: nat)
    requires Truthful(k, rows) && g < |Groups(rows)|
    ensures var r := RedemptionOf(bal, Groups(rows)[g]);
      && r.yesAmount == (if ReportsSide(rows, r.conditionId, true) then At(bal, k.yesOf(r.conditionId)) else 0)
      && r.noAmount == (if ReportsSide(rows, r.conditionId, false) then At(bal, k.noOf(r.conditionId)) else 0)
  {
    var cid := Groups(rows)[g].conditionId;
    GroupsWellFormed(k, rows);
    TokenIffReported(rows, cid, true);
    TokenIffReported(rows, cid, false);
    assert FindGroup(Groups(rows), cid) == g;
  }

  /** A call comes from a group of its own condition. */
  lemma CallHasGroup(rows: seq<Position>, bal: Balances, minRaw: int, m: nat) returns (g: nat)
    requires m < |CallsFor(rows, bal, minRaw)|
    ensures g < |Groups(rows)| && Worthwhile(RedemptionOf(bal, Groups(rows)[g]), minRaw)
    ensures CallsFor(rows, bal, minRaw)[m] == CallOf(RedemptionOf(bal, Groups(rows)[g]))
  {
    g := RedemptionsFromGroups(Groups(rows), bal, minRaw, m);
  }

  /** A condition is redeemed exactly when its reported sides hold something, and no less than the minimum. */
  lemma PlannedIff(k: Tokens, rows: seq<Position>, bal: Balances, minRaw: int, cid: Bytes32)
    requires Truthful(k, rows)
    ensures Planned(rows, bal, minRaw, cid) <==>
      ReportedHeld(k, rows, bal, cid) > 0 && ReportedHeld(k, rows, bal, cid) >= minRaw
  {
    if Planned(rows, bal, minRaw, cid) {
      var m: nat :| m < |CallsFor(rows, bal, minRaw)| && CallsFor(rows, bal, minRaw)[m].conditionId == cid;
      var g := CallHasGroup(rows, bal, minRaw, m);
      HeldOfGroup(k, rows, bal, g);
    }
    if ReportedHeld(k, rows, bal, cid) > 0 && ReportedHeld(k, rows, bal, cid) >= minRaw {
      TokenIffReported(rows, cid, true);
      TokenIffReported(rows, cid, false);
      var g := FindGroup(Groups(rows), cid);
      HeldOfGroup(k, rows, bal, g);
      var m := WorthwhileIsPlanned(Groups(rows), bal, minRaw, g);
      assert CallsFor(rows, bal, minRaw)[m].conditionId == cid;
    }
  }

  lemma {:induction false} FirstRowExists(rows: seq<Position>, cid: Bytes32, i: nat) returns (first: nat)
    requires RowOf(rows, i, cid)
    ensures FirstRowOf(rows, first, cid)
    decreases i
  {
    if FirstRowOf(rows, i, cid) {
      first := i;
    } else {
      var j: nat :| j < i && RowOf(rows, j, cid);
      first := FirstRowExists(rows, cid, j);
    }
  }

  /** A call goes to the CTF exactly when its condition's first row is not neg-risk, and to the adapter otherwise. */
  lemma CallKind(rows: seq<Position>, bal: Balances, minRaw: int, m: nat) returns (first: nat)
    requires m < |CallsFor(rows, bal, minRaw)|
    ensures FirstRowOf(rows, first, CallsFor(rows, bal, minRaw)[m].conditionId)
    ensures CallsFor(rows, bal, minRaw)[m].CtfRedeem? <==> !rows[first].negativeRisk
  {
    var cid := CallsFor(rows, bal, minRaw)[m].conditionId;
    var g := CallHasGroup(rows, bal, minRaw, m);
    assert FindGroup(Groups(rows), cid) < |Groups(rows)|;
    GroupedIffReported(rows, cid);
    var i: nat :| RowOf(rows, i, cid);
    first := FirstRowExists(rows, cid, i);
    KindOfFirstRow(rows, cid, first);
    GroupsDistinct(rows);
    assert FindGroup(Groups(rows), cid) == g;
  }

  lemma {:induction false} GroupsDistinct(rows: seq<Position>)
    ensures DistinctGroups(Groups(rows))
  {
    if rows != [] {
      GroupsDistinct(rows[..|rows| - 1]);
    }
  }

  /** The cap on conditions cuts the calls off behind as many as it leaves; without one all are sent. */
  lemma CapTakesFirst(k: Tokens, listing: seq<Position>, bal: Balances, opts: RedeemOptions, done: nat)
    ensures var calls := PassCalls(k, listing, bal, opts, done);
      var all := CallsFor(PageSet(listing), bal, opts.minSharesRaw);
      && calls <= all
      && (opts.maxConditions <= 0 ==> calls == all)
      && (calls != all ==> done + |calls| == Max(opts.maxConditions, done))
      && (opts.maxConditions > 0 ==> done + |calls| <= Max(opts.maxConditions, done))
  {
    var rs := Redemptions(Groups(PageSet(listing)), bal, opts.minSharesRaw);
    var n := |Capped(rs, opts, done)|;
    assert CallsOf(Capped(rs, opts, done)) == CallsOf(rs)[..n];
    assert n == |rs| ==> CallsOf(rs)[..n] == CallsOf(rs);
  }

  lemma CallIsOfTwoSides(r: Redemption)
    ensures forall side :: side in CallOf(r).indexSets ==> side == 1 || side == 2
  {
  }

  /**
   * The sides a call names: through the adapter the reported sides that are held, through the CTF
   * both. A call names no others, and is understood where it is sent.
   */
  lemma CallSides(k: Tokens, rows: seq<Position>, bal: Balances, minRaw: int, m: nat, yes: bool)
    requires Truthful(k, rows) && m < |CallsFor(rows, bal, minRaw)|
    ensures var c := CallsFor(rows, bal, minRaw)[m];
      && Routed(k, c) && (forall side :: side in c.indexSets ==> side == 1 || side == 2)
      && (Takes(k, c, yes) <==>
          c.CtfRedeem? || (ReportsSide(rows, c.conditionId, yes)
                           && At(bal, if yes then k.yesOf(c.conditionId) else k.noOf(c.conditionId)) > 0))
  {
    var g := CallHasGroup(rows, bal, minRaw, m);
    GroupsWellFormed(k, rows);
    HeldOfGroup(k, rows, bal, g);
    SidesOfCall(RedemptionOf(bal, Groups(rows)[g]));
    CallIsOfTwoSides(RedemptionOf(bal, Groups(rows)[g]));
  }

  // ----- the order of the calls -----

  lemma FoundInFront(groups: seq<RedeemGroup>, cid: Bytes32)
    requires groups != [] && FindGroup(groups[..|groups| - 1], cid) < |groups| - 1
    ensures FindGroup(groups, cid) == FindGroup(groups[..|groups| - 1], cid)
  {
    var front := groups[..|groups| - 1];
    assert forall i :: 0 <= i < |front| ==> front[i] == groups[i];
  }

  lemma {:induction false} RedemptionsInOrder(groups: seq<RedeemGroup>, bal: Balances, minRaw: int, m: nat, n: nat)
    requires DistinctGroups(groups) && m < n < |Redemptions(groups, bal, minRaw)|
    ensures var rs := Redemptions(groups, bal, minRaw);
      FindGroup(groups, rs[m].conditionId) < FindGroup(groups, rs[n].conditionId)
  {
    var front, last := groups[..|groups| - 1], |groups| - 1;
    var rs, rest := Redemptions(groups, bal, minRaw), Redemptions(front, bal, minRaw);
    var g := RedemptionsFromGroups(front, bal, minRaw, m);
    FoundInFront(groups, rs[m].conditionId);
    if n < |rest| {
      RedemptionsInOrder(front, bal, minRaw, m, n);
      var h := RedemptionsFromGroups(front, bal, minRaw, n);
      FoundInFront(groups, rs[n].conditionId);
    } else {
      assert rs[n].conditionId == groups[last].conditionId;
    }
  }

  /** Calls follow the order of their conditions' first rows, so a cap keeps the conditions reported first. */
  lemma CallsInOrder(rows: seq<Position>, bal: Balances, minRaw: int, m: nat, n: nat, i: nat, j: nat)
    requires m < n < |CallsFor(rows, bal, minRaw)|
    requires FirstRowOf(rows, i, CallsFor(rows, bal, minRaw)[m].conditionId)
    requires FirstRowOf(rows, j, CallsFor(rows, bal, minRaw)[n].conditionId)
    ensures i < j
  {
    var c, d := CallsFor(rows, bal, minRaw)[m].conditionId, CallsFor(rows, bal, minRaw)[n].conditionId;
    GroupsDistinct(rows);
    RedemptionsInOrder(Groups(rows), bal, minRaw, m, n);
    if j < i {
      GroupedInOrder(rows, d, c, j, i);
    }
  }

  // ----- how a drain goes on -----

  /** The `n`-th page-set reports a condition that is worth redeeming on these balances. */
  ghost predicate SomeWorthwhile(env: Env, opts: RedeemOptions, n: nat, bal: Balances) {
    exists cid :: WorthRedeeming(env, opts, n, bal, cid)
  }

  ghost predicate WorthRedeeming(env: Env, opts: RedeemOptions, n: nat, bal: Balances, cid: Bytes32) {
    var held := ReportedHeld(env.tokens, PageSet(env.listings(n)), bal, cid);
    held > 0 && held >= opts.minSharesRaw
  }

  lemma SendsIff(env: Env, opts: RedeemOptions, n: nat, bal: Balances, done: nat)
    requires Sound(env) && opts.maxConditions <= 0
    ensures PassCalls(env.tokens, env.listings(n), bal, opts, done) != [] <==> SomeWorthwhile(env, opts, n, bal)
  {
    var rows := PageSet(env.listings(n));
    PrefixTruthful(env.tokens, env.listings(n), Reach(env.listings(n), 0));
    CapTakesFirst(env.tokens, env.listings(n), bal, opts, done);
    var calls := CallsFor(rows, bal, opts.minSharesRaw);
    if calls != [] {
      assert Planned(rows, bal, opts.minSharesRaw, calls[0].conditionId);
      PlannedIff(env.tokens, rows, bal, opts.minSharesRaw, calls[0].conditionId);
      assert WorthRedeeming(env, opts, n, bal, calls[0].conditionId);
    }
    if cid :| WorthRedeeming(env, opts, n, bal, cid) {
      PlannedIff(env.tokens, rows, bal, opts.minSharesRaw, cid);
    }
  }

  /**
   * Without a cap, a pass in which nothing is given up is followed by another exactly when paging
   * stopped short and its page-set reported something worth redeeming.
   */
  lemma PassFollowsIff(env: Env, opts: RedeemOptions, n: nat, p: Pass)
    requires Sound(env) && opts.maxConditions <= 0 && p.sent.bad == 0
    requires p == PassAt(env, opts, n, p.start, p.before, p.done)
    ensures GoesOn(env, opts, n, p) <==> HitCap(env.listings(n)) && SomeWorthwhile(env, opts, n, p.before)
  {
    SendsIff(env, opts, n, p.before, p.done);
    PassSends(env, opts, n, p);
  }
}
