/**
 * The passes of a drain as a function of what the relayer answers and the listings report: each pass
 * sends the capped redemptions of its page-set, and a run is the chain of passes in which each goes
 * on from the one before.
 */
module RedeemPass {
  import opened Base
  import opened DataPager
  import opened Submission
  import opened Redeem
  import opened RedeemDrain

  // ----- one pass -----

  /** The redemptions of a pass, cut to what the cap on conditions leaves. */
  function Capped(rs: seq<Redemption>, opts: RedeemOptions, done: nat): seq<Redemption> {
    if opts.maxConditions > 0 then rs[..Min(Max(opts.maxConditions - done, 0), |rs|)] else rs
  }

  /** The calls of a pass over a listing, with `done` conditions already counted. */
  ghost function PassCalls(k: Tokens, listing: seq<Position>, bal: Balances, opts: RedeemOptions, done: nat)
    : seq<RedeemCall>
  {
    CallsOf(Capped(Redemptions(Groups(PageSet(listing)), bal, opts.minSharesRaw), opts, done))
  }

  /**
   * The surroundings of a run: the outcome tokens, and the relayer's answers and the reported
   * listings, arbitrary but fixed in advance.
   */
  datatype Env = Env(tokens: Tokens, answers: nat -> Answer, listings: nat -> seq<Position>)

  /** Every listing names each condition's own tokens. */
  ghost predicate Sound(env: Env) {
    DistinctTokens(env.tokens) && forall n: nat :: Truthful(env.tokens, env.listings(n))
  }

  /** One pass: when and on which balances it began, how many conditions were counted before, what it sent. */
  datatype Pass = Pass(start: nat, before: Balances, done: nat, calls: seq<RedeemCall>, sent: Sent)

  /** The conditions counted once the pass is over. */
  function Counted(p: Pass): nat {
    p.done + p.sent.ok + p.sent.bad
  }

  ghost function PassAt(env: Env, opts: RedeemOptions, n: nat, start: nat, before: Balances, done: nat): Pass {
    var calls := PassCalls(env.tokens, env.listings(n), before, opts, done);
    Pass(start, before, done, calls, SendAll(env.tokens, env.answers, start, before, calls, opts))
  }

  /** Paging stopped short of the end of the listing. */
  ghost predicate HitCap(listing: seq<Position>) {
    |listing| >= MAX_OFFSET + PAGE_LIMIT || exists offset: nat :: StalePage(listing, offset)
  }

  /** Another pass follows: some batch was accepted, rows may remain, and the cap is not used up. */
  ghost predicate GoesOn(env: Env, opts: RedeemOptions, n: nat, p: Pass) {
    p.sent.ok > 0 && HitCap(env.listings(n)) && !(opts.maxConditions > 0 && Counted(p) >= opts.maxConditions)
  }

  /** The pass that begins after these, which must let another one follow. */
  ghost predicate Begins(env: Env, opts: RedeemOptions, start: nat, before: Balances, past: seq<Pass>, p: Pass) {
    if past == [] then p == PassAt(env, opts, 0, start, before, 0)
    else
      var last := past[|past| - 1];
      GoesOn(env, opts, |past| - 1, last)
      && p == PassAt(env, opts, |past|, last.sent.clock, last.sent.bal, Counted(last))
  }

  /** The passes of a run: each begins where the one before it ended, and follows only one that goes on. */
  ghost predicate IsRun(env: Env, opts: RedeemOptions, start: nat, before: Balances, run: seq<Pass>) {
    run == []
    || (IsRun(env, opts, start, before, run[..|run| - 1])
        && Begins(env, opts, start, before, run[..|run| - 1], run[|run| - 1]))
  }

  lemma RunGrows(env: Env, opts: RedeemOptions, start: nat, before: Balances, run: seq<Pass>, p: Pass)
    requires IsRun(env, opts, start, before, run) && Begins(env, opts, start, before, run, p)
    ensures IsRun(env, opts, start, before, run + [p])
  {
    assert (run + [p])[..|run|] == run;
  }

  /** The last pass of a run, and that none follows it. */
  ghost predicate Ended(env: Env, opts: RedeemOptions, start: nat, before: Balances, run: seq<Pass>) {
    run != [] && IsRun(env, opts, start, before, run) && !GoesOn(env, opts, |run| - 1, run[|run| - 1])
  }

  /** Where the next pass begins: at the start, or where a last pass that goes on has ended. */
  ghost predicate Resumes(
    env: Env, opts: RedeemOptions, start: nat, before: Balances, run: seq<Pass>, t: nat, bal: Balances, done: nat)
  {
    if run == [] then t == start && bal == before && done == 0
    else
      var last := run[|run| - 1];
      GoesOn(env, opts, |run| - 1, last) && t == last.sent.clock && bal == last.sent.bal && done == Counted(last)
  }

  /** Where a run stands between passes: the next one may begin here, with so many conditions counted. */
  ghost predicate Between(
    env: Env, opts: RedeemOptions, start: nat, before: Balances, run: seq<Pass>, t: nat, bal: Balances, done: nat)
  {
    IsRun(env, opts, start, before, run) && Resumes(env, opts, start, before, run, t, bal, done)
  }

  lemma RunAdvances(
      env: Env, opts: RedeemOptions, start: nat, before: Balances, run: seq<Pass>, t: nat, bal: Balances, done: nat,
      p: Pass)
    requires Between(env, opts, start, before, run, t, bal, done) && p == PassAt(env, opts, |run|, t, bal, done)
    ensures IsRun(env, opts, start, before, run + [p])
    ensures GoesOn(env, opts, |run|, p) ==>
      Between(env, opts, start, before, run + [p], p.sent.clock, p.sent.bal, Counted(p))
    ensures !GoesOn(env, opts, |run|, p) ==> Ended(env, opts, start, before, run + [p])
  {
    RunGrows(env, opts, start, before, run, p);
  }

  /** The calls of any pass concern distinct conditions, each holding something, no more than the cap allows. */
  lemma PassCallsAreUseful(k: Tokens, listing: seq<Position>, bal: Balances, opts: RedeemOptions, done: nat)
    requires DistinctTokens(k) && Truthful(k, listing)
    ensures var calls := PassCalls(k, listing, bal, opts, done);
      && DistinctCalls(calls) && AllUseful(k, bal, calls)
      && (opts.maxConditions > 0 && calls != [] ==> done + |calls| <= opts.maxConditions)
  {
    PrefixTruthful(k, listing, Reach(listing, 0));
    var groups := Groups(PageSet(listing));
    GroupsWellFormed(k, PageSet(listing));
    PlannedCallsAreUseful(k, bal, groups, opts.minSharesRaw);
    var rs := Redemptions(groups, bal, opts.minSharesRaw);
    assert forall i :: 0 <= i < |Capped(rs, opts, done)| ==> CallsOf(Capped(rs, opts, done))[i] == CallsOf(rs)[i];
  }

  /** The conditions counted as redeemed over a run, pass after pass. */
  function LogOf(run: seq<Pass>): seq<Bytes32> {
    if run == [] then [] else LogOf(run[..|run| - 1]) + Ids(run[|run| - 1].sent.taken)
  }

  lemma LogGrows(run: seq<Pass>, p: Pass)
    ensures LogOf(run + [p]) == LogOf(run) + Ids(p.sent.taken)
  {
    assert (run + [p])[..|run|] == run;
  }

  lemma CappedIsPrefix(rs: seq<Redemption>, opts: RedeemOptions, done: nat)
    ensures CallsOf(Capped(rs, opts, done)) <= CallsOf(rs)
  {
  }

  /** What any pass does: its calls all counted once, the accepted ones landed, balances only drained. */
  lemma PassSends(env: Env, opts: RedeemOptions, n: nat, p: Pass)
    requires Sound(env) && p == PassAt(env, opts, n, p.start, p.before, p.done)
    ensures SentWell(env.tokens, p.before, p.calls, p.sent)
    ensures opts.maxConditions > 0 ==> Counted(p) <= Max(opts.maxConditions, p.done)
  {
    PassCallsAreUseful(env.tokens, env.listings(n), p.before, opts, p.done);
    AllSentWell(env.tokens, env.answers, p.start, p.before, p.calls, opts);
  }

  // ----- what is left -----

  /** No token a group names is held. */
  ghost predicate GroupsEmpty(bal: Balances, groups: seq<RedeemGroup>) {
    forall i :: 0 <= i < |groups| ==> HeldSide(bal, groups[i].yesToken) == 0 && HeldSide(bal, groups[i].noToken) == 0
  }

  lemma {:induction false} WorthwhileIsPlanned(groups: seq<RedeemGroup>, bal: Balances, minRaw: int, g: nat)
    returns (i: nat)
    requires g < |groups| && Worthwhile(RedemptionOf(bal, groups[g]), minRaw)
    ensures i < |Redemptions(groups, bal, minRaw)|
    ensures Redemptions(groups, bal, minRaw)[i] == RedemptionOf(bal, groups[g])
  {
    var front := groups[..|groups| - 1];
    if g < |front| {
      i := WorthwhileIsPlanned(front, bal, minRaw, g);
    } else {
      i := |Redemptions(front, bal, minRaw)|;
    }
  }

  lemma GroupDrained(
      k: Tokens, before: Balances, after: Balances, groups: seq<RedeemGroup>, g: nat, minRaw: int)
    requires g < |groups| && TruthfulGroups(k, groups) && minRaw <= 1
    requires Drained(before, after) && AllLanded(k, after, CallsOf(Redemptions(groups, before, minRaw)))
    ensures HeldSide(after, groups[g].yesToken) == 0 && HeldSide(after, groups[g].noToken) == 0
  {
    var r := RedemptionOf(before, groups[g]);
    assert groups[g].yesToken.Some? ==> At(after, groups[g].yesToken.value) == At(before, groups[g].yesToken.value)
                                        || At(after, groups[g].yesToken.value) == 0;
    assert groups[g].noToken.Some? ==> At(after, groups[g].noToken.value) == At(before, groups[g].noToken.value)
                                       || At(after, groups[g].noToken.value) == 0;
    if Worthwhile(r, minRaw) {
      var i := WorthwhileIsPlanned(groups, before, minRaw, g);
      assert CallsOf(Redemptions(groups, before, minRaw))[i] == CallOf(r);
      SidesOfCall(r);
    }
  }

  lemma JoinTaken(calls: seq<RedeemCall>, n: nat, first: Sent, later: Sent)
    requires n <= |calls|
    requires first.bad == 0 ==> first.taken == calls[..n]
    requires later.bad == 0 ==> later.taken == calls[n..]
    ensures Joined(first, later).bad == 0 ==> Joined(first, later).taken == calls
  {
    assert calls == calls[..n] + calls[n..];
  }

  /** With nothing given up, everything was accepted. */
  lemma {:induction false} AllTaken(
      k: Tokens, answers: nat -> Answer, t: nat, bal: Balances, calls: seq<RedeemCall>, opts: RedeemOptions)
    ensures var sent := SendAll(k, answers, t, bal, calls, opts); sent.bad == 0 ==> sent.taken == calls
    decreases |calls|
  {
    if calls != [] {
      var n := ChunkSize(opts, calls);
      var first := SendBatch(k, answers, t, bal, calls[..n], opts);
      AllTaken(k, answers, first.clock, first.bal, calls[n..], opts);
      JoinTaken(calls, n, first, SendAll(k, answers, first.clock, first.bal, calls[n..], opts));
    }
  }

  lemma GroupsDrained(k: Tokens, before: Balances, after: Balances, groups: seq<RedeemGroup>, minRaw: int)
    requires TruthfulGroups(k, groups) && minRaw <= 1
    requires Drained(before, after) && AllLanded(k, after, CallsOf(Redemptions(groups, before, minRaw)))
    ensures GroupsEmpty(after, groups)
  {
    forall g: nat | g < |groups|
      ensures HeldSide(after, groups[g].yesToken) == 0 && HeldSide(after, groups[g].noToken) == 0
    {
      GroupDrained(k, before, after, groups, g, minRaw);
    }
  }

  /** Without cap or dust floor, a last pass that gave nothing up has emptied every token its page-set named. */
  lemma LastPageSetIsEmpty(env: Env, opts: RedeemOptions, start: nat, before: Balances, run: seq<Pass>)
    requires Sound(env)
    requires IsRun(env, opts, start, before, run) && run != []
    requires run[|run| - 1].sent.bad == 0 && opts.maxConditions <= 0 && opts.minSharesRaw <= 1
    ensures GroupsEmpty(run[|run| - 1].sent.bal, Groups(PageSet(env.listings(|run| - 1))))
  {
    PassEmpties(env, opts, |run| - 1, run[|run| - 1]);
  }

  lemma PassEmpties(env: Env, opts: RedeemOptions, n: nat, p: Pass)
    requires DistinctTokens(env.tokens) && Truthful(env.tokens, env.listings(n))
    requires p == PassAt(env, opts, n, p.start, p.before, p.done)
    requires p.sent.bad == 0 && opts.maxConditions <= 0 && opts.minSharesRaw <= 1
    ensures GroupsEmpty(p.sent.bal, Groups(PageSet(env.listings(n))))
  {
    var k, listing := env.tokens, env.listings(n);
    PrefixTruthful(k, listing, Reach(listing, 0));
    GroupsWellFormed(k, PageSet(listing));
    PassCallsAreUseful(k, listing, p.before, opts, p.done);
    AllSentWell(k, env.answers, p.start, p.before, p.calls, opts);
    AllTaken(k, env.answers, p.start, p.before, p.calls, opts);
    GroupsDrained(k, p.before, p.sent.bal, Groups(PageSet(listing)), opts.minSharesRaw);
  }
}
