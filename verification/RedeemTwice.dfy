/**
 * A concrete run that counts one condition twice: the first listing repeats its YES row until a
 * whole page adds nothing, which reads as a capped page-set; the second lists its NO row.
 */
module RedeemTwice {
  import opened Base
  import opened DataPager
  import opened Submission
  import opened Redeem
  import opened RedeemDrain
  import opened RedeemPass
  import opened RedeemCount

  function Repeated(row: Position, n: nat): (rows: seq<Position>)
    ensures |rows| == n && forall i :: 0 <= i < n ==> rows[i] == row
  {
    if n == 0 then [] else Repeated(row, n - 1) + [row]
  }

  lemma {:induction false} FirstOfEqual(rows: seq<Position>, row: Position, n: nat)
    requires n <= |rows| && forall i :: 0 <= i < |rows| ==> rows[i] == row
    ensures Collected(rows, n) == if n == 0 then [] else [row]
  {
    if n > 0 {
      FirstOfEqual(rows, row, n - 1);
      NextRow(rows, n - 1, row);
      if n > 1 {
        assert [row][0].asset == row.asset;
      }
    }
  }

  /** Two pages of one row: one row collected, and the page-set reads as capped. */
  lemma EqualPages(rows: seq<Position>, row: Position)
    requires |rows| == 2 * PAGE_LIMIT && forall i :: 0 <= i < |rows| ==> rows[i] == row
    ensures PageSet(rows) == [row] && HitCap(rows)
  {
    FirstOfEqual(rows, row, 0);
    FirstOfEqual(rows, row, PAGE_LIMIT);
    FirstOfEqual(rows, row, 2 * PAGE_LIMIT);
    assert Reach(rows, PAGE_LIMIT) == 2 * PAGE_LIMIT;
    assert Reach(rows, 0) == 2 * PAGE_LIMIT;
    assert StalePage(rows, PAGE_LIMIT);
  }

  lemma OneRow(row: Position)
    ensures PageSet([row]) == [row] && !HitCap([row])
  {
    FirstOfEqual([row], row, 1);
    assert Reach([row], 0) == 1;
  }

  // ----- one pass over one row -----

  /** The row of one side of a neg-risk condition. */
  function SideRow(k: Tokens, cid: Bytes32, yes: bool): Position {
    Position("side", Some(Side(k, cid, yes)), Some(cid), if yes then Yes else No, true)
  }

  function SideGroup(k: Tokens, cid: Bytes32, yes: bool): RedeemGroup {
    if yes then RedeemGroup(cid, Some(k.yesOf(cid)), None, true) else RedeemGroup(cid, None, Some(k.noOf(cid)), true)
  }

  lemma OneGroup(k: Tokens, cid: Bytes32, yes: bool)
    ensures Groups([SideRow(k, cid, yes)]) == [SideGroup(k, cid, yes)]
  {
    var row := SideRow(k, cid, yes);
    assert [row][..0] == [] && [row][0] == row;
    assert Groups([]) == [] && FindGroup([], cid) == 0;
    assert Groups([row]) == AddRow([], row);
  }

  function SideCall(cid: Bytes32, yes: bool): RedeemCall {
    AdapterRedeem(cid, if yes then [1] else [2])
  }

  lemma OneRedemption(k: Tokens, bal: Balances, cid: Bytes32, yes: bool)
    requires At(bal, Side(k, cid, yes)) > 0
    ensures CallsOf(Redemptions([SideGroup(k, cid, yes)], bal, 0)) == [SideCall(cid, yes)]
  {
    var g := SideGroup(k, cid, yes);
    var r := RedemptionOf(bal, g);
    assert [g][..0] == [];
    assert Redemptions([g], bal, 0) == Redemptions([], bal, 0) + IfWorthwhile(r, 0) == [r];
    assert CallsOf([r])[0] == CallOf(r);
    var sets := (if r.yesAmount > 0 then [1] else []) + (if r.noAmount > 0 then [2] else []);
    assert sets == if yes then [1] else [2];
  }

  const DEFAULTS: RedeemOptions := RedeemOptions(0, 20, 0, 10, 5)

  function AlwaysAccepts(): nat -> Answer {
    t => Accepted
  }

  lemma OneCallSent(k: Tokens, t: nat, bal: Balances, c: RedeemCall)
    ensures SendAll(k, AlwaysAccepts(), t, bal, [c], DEFAULTS) == Sent(t + 1, ExecCalls(k, bal, [c]), 1, 0, [c])
  {
    assert [c][..1] == [c] && [c][1..] == [];
    assert LastTry(AlwaysAccepts(), t, DEFAULTS.walletBusyMaxRetries) == t;
    assert ChunkSize(DEFAULTS, [c]) == 1;
    var first := SendBatch(k, AlwaysAccepts(), t, bal, [c], DEFAULTS);
    assert first == Sent(t + 1, ExecCalls(k, bal, [c]), 1, 0, [c]);
    assert SendAll(k, AlwaysAccepts(), t + 1, first.bal, [], DEFAULTS) == Sent(t + 1, first.bal, 0, 0, []);
    assert [c] + [] == [c];
  }

  /** A pass over one held side redeems it and nothing else. */
  lemma SidePass(env: Env, n: nat, start: nat, bal: Balances, done: nat, cid: Bytes32, yes: bool) returns (p: Pass)
    requires env.answers == AlwaysAccepts() && PageSet(env.listings(n)) == [SideRow(env.tokens, cid, yes)]
    requires At(bal, Side(env.tokens, cid, yes)) > 0
    ensures p == PassAt(env, DEFAULTS, n, start, bal, done)
    ensures p.calls == [SideCall(cid, yes)]
    ensures p.sent == Sent(start + 1, ExecCalls(env.tokens, bal, p.calls), 1, 0, p.calls)
  {
    p := PassAt(env, DEFAULTS, n, start, bal, done);
    OneGroup(env.tokens, cid, yes);
    OneRedemption(env.tokens, bal, cid, yes);
    OneCallSent(env.tokens, start, bal, SideCall(cid, yes));
  }

  // ----- the run -----

  /** The YES row fills two pages first, then the NO row is listed. */
  function SplitListing(k: Tokens, cid: Bytes32, n: nat): seq<Position> {
    if n == 0 then Repeated(SideRow(k, cid, true), 2 * PAGE_LIMIT) else [SideRow(k, cid, false)]
  }

  /** These listings, and everything accepted. */
  function SplitEnv(k: Tokens, cid: Bytes32): Env {
    Env(k, AlwaysAccepts(), (n: nat) => SplitListing(k, cid, n))
  }

  lemma SplitIsSound(k: Tokens, cid: Bytes32)
    requires DistinctTokens(k) && k.negRisk(cid)
    ensures Sound(SplitEnv(k, cid))
  {
    forall n: nat ensures Truthful(k, SplitEnv(k, cid).listings(n)) {
      SplitIsTruthful(k, cid, n);
    }
  }

  lemma SplitIsTruthful(k: Tokens, cid: Bytes32, n: nat)
    requires k.negRisk(cid)
    ensures Truthful(k, SplitListing(k, cid, n))
  {
    assert TruthfulRow(k, SideRow(k, cid, true)) && TruthfulRow(k, SideRow(k, cid, false));
    var rows := Repeated(SideRow(k, cid, true), 2 * PAGE_LIMIT);
    assert forall i :: 0 <= i < |rows| ==> rows[i] == SideRow(k, cid, true);
  }

  lemma SplitPages(k: Tokens, cid: Bytes32)
    ensures PageSet(SplitEnv(k, cid).listings(0)) == [SideRow(k, cid, true)]
    ensures PageSet(SplitEnv(k, cid).listings(1)) == [SideRow(k, cid, false)]
    ensures HitCap(SplitEnv(k, cid).listings(0)) && !HitCap(SplitEnv(k, cid).listings(1))
  {
    var rows := Repeated(SideRow(k, cid, true), 2 * PAGE_LIMIT);
    EqualPages(rows, SideRow(k, cid, true));
    OneRow(SideRow(k, cid, false));
    assert SplitEnv(k, cid).listings(0) == SplitListing(k, cid, 0) == rows;
    assert SplitEnv(k, cid).listings(1) == SplitListing(k, cid, 1) == [SideRow(k, cid, false)];
  }

  lemma NoSideStays(k: Tokens, bal: Balances, cid: Bytes32)
    requires DistinctTokens(k)
    ensures At(ExecCalls(k, bal, [SideCall(cid, true)]), k.noOf(cid)) == At(bal, k.noOf(cid))
  {
    ExecCallsAt(k, bal, [SideCall(cid, true)], k.noOf(cid));
    assert [SideCall(cid, true)][1..] == [];
  }

  lemma OneId(c: RedeemCall)
    ensures Ids([c]) == [c.conditionId]
  {
  }

  lemma OnePassRun(env: Env, t: nat, bal: Balances, a: Pass)
    requires Begins(env, DEFAULTS, t, bal, [], a)
    ensures IsRun(env, DEFAULTS, t, bal, [a]) && LogOf([a]) == Ids(a.sent.taken)
  {
    assert [] + [a] == [a];
    RunGrows(env, DEFAULTS, t, bal, [], a);
    LogGrows([], a);
    assert [] + Ids(a.sent.taken) == Ids(a.sent.taken);
  }

  lemma TwoPassRun(env: Env, t: nat, bal: Balances, a: Pass, b: Pass)
    requires IsRun(env, DEFAULTS, t, bal, [a]) && Begins(env, DEFAULTS, t, bal, [a], b)
    requires !GoesOn(env, DEFAULTS, 1, b)
    ensures Ended(env, DEFAULTS, t, bal, [a, b])
    ensures LogOf([a, b]) == LogOf([a]) + Ids(b.sent.taken)
  {
    assert [a] + [b] == [a, b];
    RunGrows(env, DEFAULTS, t, bal, [a], b);
    LogGrows([a], b);
  }

  /** The first pass redeems the YES side and goes on. */
  lemma FirstSide(env: Env, bal: Balances, cid: Bytes32) returns (a: Pass)
    requires env.answers == AlwaysAccepts() && At(bal, env.tokens.yesOf(cid)) > 0
    requires PageSet(env.listings(0)) == [SideRow(env.tokens, cid, true)] && HitCap(env.listings(0))
    ensures Begins(env, DEFAULTS, 0, bal, [], a) && GoesOn(env, DEFAULTS, 0, a)
    ensures a.sent.bal == ExecCalls(env.tokens, bal, [SideCall(cid, true)])
    ensures a.sent.taken == [SideCall(cid, true)]
  {
    a := SidePass(env, 0, 0, bal, 0, cid, true);
  }

  /** The second pass redeems the NO side and ends the run. */
  lemma SecondSide(env: Env, bal: Balances, cid: Bytes32, a: Pass) returns (b: Pass)
    requires env.answers == AlwaysAccepts() && At(a.sent.bal, env.tokens.noOf(cid)) > 0
    requires PageSet(env.listings(1)) == [SideRow(env.tokens, cid, false)] && !HitCap(env.listings(1))
    requires GoesOn(env, DEFAULTS, 0, a)
    ensures Begins(env, DEFAULTS, 0, bal, [a], b) && !GoesOn(env, DEFAULTS, 1, b)
    ensures b.sent.taken == [SideCall(cid, false)]
  {
    b := SidePass(env, 1, a.sent.clock, a.sent.bal, Counted(a), cid, false);
    assert [a][|[a]| - 1] == a;
  }

  /**
   * With both sides of a neg-risk condition held, there is a complete run that counts it as redeemed
   * in both of its passes.
   */
  lemma CountsOneConditionTwice(k: Tokens, bal: Balances, cid: Bytes32) returns (run: seq<Pass>)
    requires DistinctTokens(k) && k.negRisk(cid) && At(bal, k.yesOf(cid)) > 0 && At(bal, k.noOf(cid)) > 0
    ensures Sound(SplitEnv(k, cid)) && Ended(SplitEnv(k, cid), DEFAULTS, 0, bal, run)
    ensures LogOf(run) == [cid, cid]
  {
    var env := SplitEnv(k, cid);
    SplitIsSound(k, cid);
    SplitPages(k, cid);
    var a := FirstSide(env, bal, cid);
    NoSideStays(k, bal, cid);
    var b := SecondSide(env, bal, cid, a);
    OnePassRun(env, 0, bal, a);
    TwoPassRun(env, 0, bal, a, b);
    OneId(SideCall(cid, true));
    OneId(SideCall(cid, false));
    run := [a, b];
  }
}
