/**
 * Draining redeemable positions: group the reported rows per condition, read exact balances,
 * submit redeems in batches, and repeat while the page-set was capped. The chain burns a
 * condition's full balance of each redeemed side; the relayer and the reported rows may be
 * anything truthful, in any order, lagging or not.
 */
module Redeem {
  import opened Base
  import opened DataPager

  type Balances = map<nat, nat>

  datatype RedeemGroup = RedeemGroup(
    conditionId: Bytes32, yesToken: Option<nat>, noToken: Option<nat>, negRisk: bool)

  datatype Redemption = Redemption(conditionId: Bytes32, yesAmount: nat, noAmount: nat, negRisk: bool)

  /** Index set 1 redeems the YES side, 2 the NO side. */
  datatype RedeemCall = AdapterRedeem(conditionId: Bytes32, indexSets: seq<nat>)
                      | CtfRedeem(conditionId: Bytes32, indexSets: seq<nat>)

  datatype RedeemOptions = RedeemOptions(
    minSharesRaw: int, batchSize: int, maxConditions: int, walletBusyMaxRetries: int, batchMaxRetries: int)

  datatype RedeemSummary = RedeemSummary(redeemed: nat, failed: nat, passes: nat)

  /** The outcome tokens of every condition, and which conditions are neg-risk. */
  datatype Tokens = Tokens(yesOf: Bytes32 -> nat, noOf: Bytes32 -> nat, negRisk: Bytes32 -> bool)

  ghost predicate DistinctTokens(k: Tokens) {
    && (forall c, d :: k.yesOf(c) != k.noOf(d))
    && (forall c, d :: k.yesOf(c) == k.yesOf(d) ==> c == d)
    && (forall c, d :: k.noOf(c) == k.noOf(d) ==> c == d)
  }

  /** A parsed row names the token of its side and the kind of its condition. */
  predicate TruthfulRow(k: Tokens, p: Position) {
    p.conditionId.Some? && p.token.Some? ==>
      p.negativeRisk == k.negRisk(p.conditionId.value)
      && (p.outcome == Yes ==> p.token.value == k.yesOf(p.conditionId.value))
      && (p.outcome == No ==> p.token.value == k.noOf(p.conditionId.value))
  }

  function At(bal: Balances, token: nat): nat {
    if token in bal then bal[token] else 0
  }

  function Positive(bal: Balances): set<nat> {
    set t | t in bal.Keys && bal[t] > 0
  }

  // ----- grouping -----

  function FindGroup(groups: seq<RedeemGroup>, cid: Bytes32): (i: nat)
    ensures i <= |groups|
    ensures i < |groups| ==> groups[i].conditionId == cid
    ensures forall j :: 0 <= j < i ==> groups[j].conditionId != cid
  {
    if groups == [] || groups[0].conditionId == cid then 0 else 1 + FindGroup(groups[1..], cid)
  }

  function SetSide(g: RedeemGroup, outcome: Outcome, token: nat): RedeemGroup {
    match outcome
    case Yes => g.(yesToken := Some(token))
    case No => g.(noToken := Some(token))
    case Other => g
  }

  /** One row's effect on the groups: skipped when unparsed, else set on its condition's group. */
  function AddRow(groups: seq<RedeemGroup>, p: Position): seq<RedeemGroup> {
    if p.conditionId.None? || p.token.None? then groups
    else
      var i := FindGroup(groups, p.conditionId.value);
      if i < |groups| then groups[i := SetSide(groups[i], p.outcome, p.token.value)]
      else groups + [SetSide(RedeemGroup(p.conditionId.value, None, None, p.negativeRisk), p.outcome, p.token.value)]
  }

  function Groups(rows: seq<Position>): seq<RedeemGroup> {
    if rows == [] then [] else AddRow(Groups(rows[..|rows| - 1]), rows[|rows| - 1])
  }

  ghost predicate DistinctGroups(groups: seq<RedeemGroup>) {
    forall i, j :: 0 <= i < j < |groups| ==> groups[i].conditionId != groups[j].conditionId
  }

  /** Each group has its condition's own tokens and kind. */
  ghost predicate TruthfulGroups(k: Tokens, groups: seq<RedeemGroup>) {
    forall i :: 0 <= i < |groups| ==>
      groups[i].negRisk == k.negRisk(groups[i].conditionId)
      && (groups[i].yesToken.Some? ==> groups[i].yesToken.value == k.yesOf(groups[i].conditionId))
      && (groups[i].noToken.Some? ==> groups[i].noToken.value == k.noOf(groups[i].conditionId))
  }

  lemma {:induction false} GroupsWellFormed(k: Tokens, rows: seq<Position>)
    requires forall i :: 0 <= i < |rows| ==> TruthfulRow(k, rows[i])
    ensures DistinctGroups(Groups(rows)) && TruthfulGroups(k, Groups(rows))
  {
    if rows != [] {
      GroupsWellFormed(k, rows[..|rows| - 1]);
      assert TruthfulRow(k, rows[|rows| - 1]);
    }
  }

  method GroupRedeemable(positions: seq<Position>) returns (groups: seq<RedeemGroup>)
    ensures groups == Groups(positions)
  {
    groups := [];
    for n := 0 to |positions|
      invariant groups == Groups(positions[..n])
    {
      var p := positions[n];
      assert positions[..n + 1][..n] == positions[..n] && positions[..n + 1][n] == p;
      if p.conditionId.Some? && p.token.Some? {
        var i := FindGroup(groups, p.conditionId.value);
        if i == |groups| {
          groups := groups + [RedeemGroup(p.conditionId.value, None, None, p.negativeRisk)];
        }
        if p.outcome == Yes {
          groups := groups[i := groups[i].(yesToken := Some(p.token.value))];
        } else if p.outcome == No {
          groups := groups[i := groups[i].(noToken := Some(p.token.value))];
        }
      }
    }
    assert positions[..|positions|] == positions;
  }

  // ----- redemptions and calls -----

  function HeldSide(bal: Balances, token: Option<nat>): nat {
    if token.Some? then At(bal, token.value) else 0
  }

  function RedemptionOf(bal: Balances, g: RedeemGroup): Redemption {
    Redemption(g.conditionId, HeldSide(bal, g.yesToken), HeldSide(bal, g.noToken), g.negRisk)
  }

  /** Worth redeeming: holds something, and no less than the minimum. */
  predicate Worthwhile(r: Redemption, minRaw: int) {
    r.yesAmount + r.noAmount != 0 && r.yesAmount + r.noAmount >= minRaw
  }

  function IfWorthwhile(r: Redemption, minRaw: int): seq<Redemption> {
    if Worthwhile(r, minRaw) then [r] else []
  }

  function Redemptions(groups: seq<RedeemGroup>, bal: Balances, minRaw: int): seq<Redemption> {
    if groups == [] then []
    else Redemptions(groups[..|groups| - 1], bal, minRaw)
         + IfWorthwhile(RedemptionOf(bal, groups[|groups| - 1]), minRaw)
  }

  method BuildRedemptions(groups: seq<RedeemGroup>, bal: Balances, minRaw: int) returns (out: seq<Redemption>)
    ensures out == Redemptions(groups, bal, minRaw)
  {
    out := [];
    for n := 0 to |groups|
      invariant out == Redemptions(groups[..n], bal, minRaw)
    {
      assert groups[..n + 1][..n] == groups[..n] && groups[..n + 1][n] == groups[n];
      var r := RedemptionOf(bal, groups[n]);
      var total := r.yesAmount + r.noAmount;
      if total == 0 || total < minRaw {
        assert out + [] == out;
      } else {
        out := out + [r];
      }
    }
    assert groups[..|groups|] == groups;
  }

  function CallOf(r: Redemption): RedeemCall {
    if r.negRisk then
      AdapterRedeem(r.conditionId, (if r.yesAmount > 0 then [1] else []) + (if r.noAmount > 0 then [2] else []))
    else CtfRedeem(r.conditionId, [1, 2])
  }

  function CallsOf(redemptions: seq<Redemption>): (calls: seq<RedeemCall>)
    ensures |calls| == |redemptions| && forall i :: 0 <= i < |calls| ==> calls[i] == CallOf(redemptions[i])
  {
    seq(|redemptions|, i requires 0 <= i < |redemptions| => CallOf(redemptions[i]))
  }

  method BuildCalls(redemptions: seq<Redemption>) returns (calls: seq<RedeemCall>)
    ensures calls == CallsOf(redemptions)
  {
    calls := [];
    for n := 0 to |redemptions|
      invariant |calls| == n && forall i :: 0 <= i < n ==> calls[i] == CallOf(redemptions[i])
    {
      var r := redemptions[n];
      if r.negRisk {
        var sets := [];
        if r.yesAmount > 0 {
          sets := sets + [1];
        }
        if r.noAmount > 0 {
          sets := sets + [2];
        }
        calls := calls + [AdapterRedeem(r.conditionId, sets)];
      } else {
        calls := calls + [CtfRedeem(r.conditionId, [1, 2])];
      }
    }
  }

  // ----- the chain -----

  function Burn(bal: Balances, token: nat, burned: bool): Balances {
    if burned && token in bal then bal[token := 0] else bal
  }

  /** The adapter redeems neg-risk conditions only, the CTF the others. */
  predicate Routed(k: Tokens, c: RedeemCall) {
    c.AdapterRedeem? <==> k.negRisk(c.conditionId)
  }

  /** The call redeems this side of its condition: YES when `yes`, else NO. */
  predicate Takes(k: Tokens, c: RedeemCall, yes: bool) {
    Routed(k, c) && (if yes then 1 in c.indexSets else 2 in c.indexSets)
  }

  /** A redeem sent where its condition is redeemed pays out and burns the full balance of each named side. */
  function ExecCall(k: Tokens, bal: Balances, c: RedeemCall): Balances {
    Burn(Burn(bal, k.yesOf(c.conditionId), Takes(k, c, true)), k.noOf(c.conditionId), Takes(k, c, false))
  }

  function ExecCalls(k: Tokens, bal: Balances, calls: seq<RedeemCall>): Balances
    decreases |calls|
  {
    if calls == [] then bal else ExecCalls(k, ExecCall(k, bal, calls[0]), calls[1..])
  }

  /** The call redeems a side that is held. */
  predicate Useful(k: Tokens, bal: Balances, c: RedeemCall) {
    (Takes(k, c, true) && At(bal, k.yesOf(c.conditionId)) > 0)
    || (Takes(k, c, false) && At(bal, k.noOf(c.conditionId)) > 0)
  }

  /** Balances only ever fall to zero. */
  ghost predicate Drained(before: Balances, after: Balances) {
    forall t: nat :: At(after, t) == At(before, t) || At(after, t) == 0
  }

  lemma ExecCallDrains(k: Tokens, bal: Balances, c: RedeemCall)
    ensures Drained(bal, ExecCall(k, bal, c))
    ensures ExecCall(k, bal, c).Keys == bal.Keys
    ensures Takes(k, c, true) ==> At(ExecCall(k, bal, c), k.yesOf(c.conditionId)) == 0
    ensures Takes(k, c, false) ==> At(ExecCall(k, bal, c), k.noOf(c.conditionId)) == 0
  {
  }

  lemma PositiveShrinks(before: Balances, after: Balances)
    requires Drained(before, after) && after.Keys == before.Keys
    ensures Positive(after) <= Positive(before)
    ensures |Positive(after)| <= |Positive(before)|
  {
    forall t | t in Positive(after) ensures t in Positive(before) {
      assert At(after, t) == At(before, t);
    }
    SubsetSize(Positive(after), Positive(before));
  }

  lemma {:induction false} SubsetSize(a: set<nat>, b: set<nat>)
    requires a <= b
    ensures |a| <= |b|
  {
    assert b == a + (b - a);
  }

  lemma UsefulCallShrinks(k: Tokens, bal: Balances, c: RedeemCall)
    requires Useful(k, bal, c)
    ensures |Positive(ExecCall(k, bal, c))| < |Positive(bal)|
  {
    ExecCallDrains(k, bal, c);
    var after := ExecCall(k, bal, c);
    var t := if Takes(k, c, true) && At(bal, k.yesOf(c.conditionId)) > 0
             then k.yesOf(c.conditionId) else k.noOf(c.conditionId);
    PositiveShrinks(bal, after);
    assert t in Positive(bal) && t !in Positive(after);
    SubsetSize(Positive(after) + {t}, Positive(bal));
  }

  ghost predicate DistinctCalls(calls: seq<RedeemCall>) {
    forall i, j :: 0 <= i < j < |calls| ==> calls[i].conditionId != calls[j].conditionId
  }

  ghost predicate AllUseful(k: Tokens, bal: Balances, calls: seq<RedeemCall>) {
    forall i :: 0 <= i < |calls| ==> Useful(k, bal, calls[i])
  }

  lemma OtherStaysUseful(k: Tokens, bal: Balances, c: RedeemCall, d: RedeemCall)
    requires DistinctTokens(k) && c.conditionId != d.conditionId && Useful(k, bal, d)
    ensures Useful(k, ExecCall(k, bal, c), d)
  {
  }

  /** Landing a batch empties at least one held token per call. */
  lemma {:induction false} BatchDrains(k: Tokens, bal: Balances, calls: seq<RedeemCall>)
    requires DistinctTokens(k) && DistinctCalls(calls) && AllUseful(k, bal, calls)
    ensures |Positive(ExecCalls(k, bal, calls))| + |calls| <= |Positive(bal)|
    decreases |calls|
  {
    if calls != [] {
      var rest := calls[1..];
      var bal' := ExecCall(k, bal, calls[0]);
      UsefulCallShrinks(k, bal, calls[0]);
      forall i | 0 <= i < |rest| ensures Useful(k, bal', rest[i]) {
        assert rest[i] == calls[i + 1];
        OtherStaysUseful(k, bal, calls[0], calls[i + 1]);
      }
      assert forall i :: 0 <= i < |rest| ==> rest[i] == calls[i + 1];
      BatchDrains(k, bal', rest);
    }
  }

  lemma {:induction false} ExecCallsDrain(k: Tokens, bal: Balances, calls: seq<RedeemCall>)
    ensures Drained(bal, ExecCalls(k, bal, calls)) && ExecCalls(k, bal, calls).Keys == bal.Keys
    ensures |Positive(ExecCalls(k, bal, calls))| <= |Positive(bal)|
    decreases |calls|
  {
    if calls != [] {
      ExecCallDrains(k, bal, calls[0]);
      ExecCallsDrain(k, ExecCall(k, bal, calls[0]), calls[1..]);
    }
    PositiveShrinks(bal, ExecCalls(k, bal, calls));
  }

  lemma {:induction false} CallLands(k: Tokens, bal: Balances, calls: seq<RedeemCall>, i: nat)
    requires i < |calls|
    ensures Takes(k, calls[i], true) ==> At(ExecCalls(k, bal, calls), k.yesOf(calls[i].conditionId)) == 0
    ensures Takes(k, calls[i], false) ==> At(ExecCalls(k, bal, calls), k.noOf(calls[i].conditionId)) == 0
    decreases |calls|
  {
    var bal' := ExecCall(k, bal, calls[0]);
    if i == 0 {
      ExecCallDrains(k, bal, calls[0]);
      ExecCallsDrain(k, bal', calls[1..]);
    } else {
      CallLands(k, bal', calls[1..], i - 1);
    }
  }

  // ----- when a condition can come up again -----

  function HeldOf(k: Tokens, bal: Balances, cid: Bytes32): nat {
    At(bal, k.yesOf(cid)) + At(bal, k.noOf(cid))
  }

  /**
   * After a redeem lands, the condition still holds something exactly when it was redeemed through
   * the adapter without its other, held side having been reported.
   */
  lemma LeftAfterRedeemIff(k: Tokens, bal: Balances, g: RedeemGroup)
    requires DistinctTokens(k) && TruthfulGroups(k, [g])
    ensures HeldOf(k, ExecCall(k, bal, CallOf(RedemptionOf(bal, g))), g.conditionId) > 0 <==>
      g.negRisk
      && ((g.yesToken.None? && At(bal, k.yesOf(g.conditionId)) > 0)
          || (g.noToken.None? && At(bal, k.noOf(g.conditionId)) > 0))
  {
    var r := RedemptionOf(bal, g);
    assert [g][0] == g;
    assert g.negRisk == k.negRisk(g.conditionId);
    var c := CallOf(r);
    if g.negRisk {
      assert 1 in c.indexSets <==> r.yesAmount > 0;
      assert 2 in c.indexSets <==> r.noAmount > 0;
    }
  }
}
