/**
 * The drain loop: page, read, build, submit in batches, and go again while the page-set was
 * capped and some batch was accepted. It terminates for every behaviour of the API and the
 * relayer, since each pass that continues has emptied at least one held token.
 */
module RedeemRun {
  import opened Base
  import opened DataPager
  import opened Submission
  import opened Redeem
  import opened RedeemDrain
  import opened RedeemPass
  import opened RedeemCount

  method PlanPass(bal: Balances, positions: seq<Position>, opts: RedeemOptions, done: nat)
    returns (calls: seq<RedeemCall>)
    ensures calls == CallsOf(Capped(Redemptions(Groups(positions), bal, opts.minSharesRaw), opts, done))
  {
    var redemptions := ReadAndPlan(bal, positions, opts.minSharesRaw);
    if redemptions == [] {
      return [];
    }
    if opts.maxConditions > 0 {
      var remaining := opts.maxConditions - done;
      if remaining <= 0 {
        return [];
      }
      redemptions := redemptions[..Min(remaining, |redemptions|)];
    }
    calls := BuildCalls(redemptions);
  }

  /** What was submitted for a pass: all its calls, batch by batch, each until it was settled. */
  ghost predicate PassSubmitted(answers: nat -> Answer, opts: RedeemOptions, p: Pass, sendings: seq<Submitted>) {
    && Batched(p.calls, BatchesOf(sendings), Max(opts.batchSize, 1))
    && FromTo(sendings, p.start, p.sent.clock) && AllSettled(answers, sendings, opts)
  }

  lemma SubmittedWhole(
      world: World, before: seq<seq<RedeemCall>>, p: Pass, opts: RedeemOptions, sendings: seq<Submitted>)
    requires PassLogged(world, before, p.start, p.calls, |p.calls|, opts, sendings) && p.sent.clock == world.clock
    ensures PassSubmitted(world.answers, opts, p, sendings)
    ensures Logged(before, world.log, sendings, p.start, world.clock)
  {
    assert p.calls[..|p.calls|] == p.calls;
  }

  /** One pass of the drain: page, read, plan, submit, and whether to go on. */
  method RunPass(
      world: World, env: Env, opts: RedeemOptions, n: nat, done: nat, ghost pass: Pass)
    returns (ok: nat, bad: nat, more: bool, ghost sendings: seq<Submitted>)
    requires world.answers == env.answers
    requires pass == PassAt(env, opts, n, world.clock, world.state, done)
    modifies world
    ensures pass.sent.clock == world.clock && pass.sent.bal == world.state
    ensures ok == pass.sent.ok && bad == pass.sent.bad
    ensures more <==> GoesOn(env, opts, n, pass)
    ensures PassSubmitted(env.answers, opts, pass, sendings)
    ensures Logged(old(world.log), world.log, sendings, old(world.clock), world.clock)
  {
    ok, bad, more, sendings := 0, 0, false, [];
    PassLogStarts(world, [], opts);
    var positions, hitCap := AllRedeemable(env.listings(n));
    var calls := [];
    if positions != [] {
      calls := PlanPass(world.state, positions, opts, done);
    }
    assert calls == pass.calls;
    ghost var before, t := world.log, world.clock;
    if calls != [] {
      ghost var sent;
      ok, bad, sent, sendings := SubmitBatches(world, env.tokens, calls, opts);
      if opts.maxConditions > 0 && done + ok + bad >= opts.maxConditions {
        more := false;
      } else if ok == 0 {
        more := false;
      } else {
        more := hitCap;
      }
    }
    SubmittedWhole(world, before, pass, opts, sendings);
  }

  /** What a run reports after so many passes: every count emptied a token, and the cap was kept to. */
  ghost predicate Reported(
    opts: RedeemOptions, bal0: Balances, run: seq<Pass>, bal: Balances, summary: RedeemSummary)
  {
    && |run| == summary.passes <= summary.redeemed + 1
    && |LogOf(run)| == summary.redeemed
    && Drained(bal0, bal) && summary.redeemed + |Positive(bal)| <= |Positive(bal0)|
    && (opts.maxConditions > 0 ==> summary.redeemed + summary.failed <= opts.maxConditions)
  }

  lemma PassReports(
      env: Env, opts: RedeemOptions, bal0: Balances, past: seq<Pass>, p: Pass, was: RedeemSummary)
    requires Sound(env) && Reported(opts, bal0, past, p.before, was) && was.passes <= was.redeemed
    requires p == PassAt(env, opts, |past|, p.start, p.before, was.redeemed + was.failed)
    ensures Reported(opts, bal0, past + [p], p.sent.bal,
      RedeemSummary(was.redeemed + p.sent.ok, was.failed + p.sent.bad, was.passes + 1))
    ensures |Positive(p.sent.bal)| + p.sent.ok <= |Positive(p.before)|
  {
    PassSends(env, opts, |past|, p);
    LogGrows(past, p);
    DrainedTrans(bal0, p.before, p.sent.bal);
  }

  /** A run that may go on: so far reported, and another pass may begin here. */
  ghost predicate Open(
    env: Env, opts: RedeemOptions, start: nat, bal0: Balances, run: seq<Pass>, t: nat, bal: Balances,
    summary: RedeemSummary)
  {
    && Between(env, opts, start, bal0, run, t, bal, summary.redeemed + summary.failed)
    && Reported(opts, bal0, run, bal, summary) && summary.passes <= summary.redeemed
  }

  /** A run that is over, and what it reports. */
  ghost predicate Closed(
    env: Env, opts: RedeemOptions, start: nat, bal0: Balances, run: seq<Pass>, bal: Balances, summary: RedeemSummary)
  {
    && Ended(env, opts, start, bal0, run) && run[|run| - 1].sent.bal == bal
    && Counted(run[|run| - 1]) == summary.redeemed + summary.failed
    && Reported(opts, bal0, run, bal, summary)
  }

  function Totaled(was: RedeemSummary, p: Pass): RedeemSummary {
    RedeemSummary(was.redeemed + p.sent.ok, was.failed + p.sent.bad, was.passes + 1)
  }

  /** The pass that may begin now counts well. */
  lemma NextReports(
      env: Env, opts: RedeemOptions, start: nat, bal0: Balances, past: seq<Pass>, was: RedeemSummary, p: Pass)
    requires Sound(env) && Open(env, opts, start, bal0, past, p.start, p.before, was)
    requires p == PassAt(env, opts, |past|, p.start, p.before, was.redeemed + was.failed)
    ensures |Positive(p.sent.bal)| + p.sent.ok <= |Positive(p.before)| && was.passes <= was.redeemed
    ensures Reported(opts, bal0, past + [p], p.sent.bal, Totaled(was, p))
  {
    PassReports(env, opts, bal0, past, p, was);
  }

  lemma StaysOpen(
      env: Env, opts: RedeemOptions, start: nat, bal0: Balances, past: seq<Pass>, was: RedeemSummary, p: Pass)
    requires was.passes <= was.redeemed && p.done == was.redeemed + was.failed && p.sent.ok > 0
    requires Reported(opts, bal0, past + [p], p.sent.bal, Totaled(was, p))
    requires Between(env, opts, start, bal0, past + [p], p.sent.clock, p.sent.bal, Counted(p))
    ensures Open(env, opts, start, bal0, past + [p], p.sent.clock, p.sent.bal, Totaled(was, p))
  {
  }

  lemma IsOver(
      env: Env, opts: RedeemOptions, start: nat, bal0: Balances, past: seq<Pass>, was: RedeemSummary, p: Pass)
    requires p.done == was.redeemed + was.failed
    requires Reported(opts, bal0, past + [p], p.sent.bal, Totaled(was, p))
    requires Ended(env, opts, start, bal0, past + [p])
    ensures Closed(env, opts, start, bal0, past + [p], p.sent.bal, Totaled(was, p))
  {
  }

  /** After so many passes: open when more are to come, and otherwise over. */
  ghost predicate Standing(
    env: Env, opts: RedeemOptions, start: nat, bal0: Balances, run: seq<Pass>, t: nat, bal: Balances,
    summary: RedeemSummary, more: bool)
  {
    if more then Open(env, opts, start, bal0, run, t, bal, summary)
    else Closed(env, opts, start, bal0, run, bal, summary)
  }

  /** The next pass lets the run go on, with less held. */
  lemma NextGoesOn(
      env: Env, opts: RedeemOptions, start: nat, bal0: Balances, past: seq<Pass>, was: RedeemSummary, p: Pass)
    requires Sound(env) && Open(env, opts, start, bal0, past, p.start, p.before, was)
    requires p == PassAt(env, opts, |past|, p.start, p.before, was.redeemed + was.failed)
    requires GoesOn(env, opts, |past|, p)
    ensures |Positive(p.sent.bal)| < |Positive(p.before)|
    ensures Open(env, opts, start, bal0, past + [p], p.sent.clock, p.sent.bal, Totaled(was, p))
  {
    NextReports(env, opts, start, bal0, past, was, p);
    RunAdvances(env, opts, start, bal0, past, p.start, p.before, was.redeemed + was.failed, p);
    StaysOpen(env, opts, start, bal0, past, was, p);
  }

  /** The next pass ends the run. */
  lemma NextEnds(
      env: Env, opts: RedeemOptions, start: nat, bal0: Balances, past: seq<Pass>, was: RedeemSummary, p: Pass)
    requires Sound(env) && Open(env, opts, start, bal0, past, p.start, p.before, was)
    requires p == PassAt(env, opts, |past|, p.start, p.before, was.redeemed + was.failed)
    requires !GoesOn(env, opts, |past|, p)
    ensures Closed(env, opts, start, bal0, past + [p], p.sent.bal, Totaled(was, p))
  {
    NextReports(env, opts, start, bal0, past, was, p);
    RunAdvances(env, opts, start, bal0, past, p.start, p.before, was.redeemed + was.failed, p);
    IsOver(env, opts, start, bal0, past, was, p);
  }

  /** The same of the pass as the loop counts passes, and of what it leaves. */
  lemma CountedPass(
      env: Env, opts: RedeemOptions, start: nat, bal0: Balances, past: seq<Pass>, was: RedeemSummary, t: nat,
      before: Balances, p: Pass, end: nat, after: Balances, summary: RedeemSummary, more: bool)
    requires Sound(env) && Open(env, opts, start, bal0, past, t, before, was)
    requires p == PassAt(env, opts, was.passes, t, before, was.redeemed + was.failed)
    requires more <==> GoesOn(env, opts, was.passes, p)
    requires p.sent.clock == end && p.sent.bal == after && summary == Totaled(was, p)
    ensures more ==> |Positive(after)| < |Positive(before)|
    ensures Standing(env, opts, start, bal0, past + [p], end, after, summary, more)
  {
    assert was.passes == |past|;
    if more {
      NextGoesOn(env, opts, start, bal0, past, was, p);
    } else {
      NextEnds(env, opts, start, bal0, past, was, p);
    }
  }

  /** One more pass of a run, counted. */
  method Advance(
      world: World, env: Env, opts: RedeemOptions, was: RedeemSummary, ghost start: nat,
      ghost bal0: Balances, ghost past: seq<Pass>)
    returns (summary: RedeemSummary, more: bool, ghost p: Pass, ghost sendings: seq<Submitted>)
    requires world.answers == env.answers && Sound(env)
    requires Open(env, opts, start, bal0, past, world.clock, world.state, was)
    modifies world
    ensures more ==> |Positive(world.state)| < |Positive(old(world.state))|
    ensures Standing(env, opts, start, bal0, past + [p], world.clock, world.state, summary, more)
    ensures PassSubmitted(env.answers, opts, p, sendings)
    ensures Logged(old(world.log), world.log, sendings, old(world.clock), world.clock)
  {
    ghost var t, before := world.clock, world.state;
    var done: nat := was.redeemed + was.failed;
    p := PassAt(env, opts, was.passes, t, before, done);
    var ok, bad;
    ok, bad, more, sendings := RunPass(world, env, opts, was.passes, done, p);
    summary := RedeemSummary(was.redeemed + ok, was.failed + bad, was.passes + 1);
    CountedPass(env, opts, start, bal0, past, was, t, before, p, world.clock, world.state, summary, more);
  }

  /** What was submitted over a run: pass by pass, and nothing else. */
  ghost predicate RunSubmitted(
    world: World, before: seq<seq<RedeemCall>>, t: nat, opts: RedeemOptions, run: seq<Pass>,
    submitted: seq<seq<Submitted>>)
    reads world
  {
    && |submitted| == |run| && Logged(before, world.log, Concat(submitted), t, world.clock)
    && forall n :: 0 <= n < |run| ==> PassSubmitted(world.answers, opts, run[n], submitted[n])
  }

  lemma NothingSubmitted(world: World, opts: RedeemOptions)
    ensures RunSubmitted(world, world.log, world.clock, opts, [], [])
  {
    NothingLogged(world.log, world.clock);
  }

  lemma PassIsSubmitted(
      world: World, before: seq<seq<RedeemCall>>, mid: seq<seq<RedeemCall>>, t: nat, m: nat, opts: RedeemOptions,
      run: seq<Pass>, submitted: seq<seq<Submitted>>, p: Pass, sendings: seq<Submitted>)
    requires |submitted| == |run| && Logged(before, mid, Concat(submitted), t, m)
    requires forall n :: 0 <= n < |run| ==> PassSubmitted(world.answers, opts, run[n], submitted[n])
    requires PassSubmitted(world.answers, opts, p, sendings) && Logged(mid, world.log, sendings, m, world.clock)
    ensures RunSubmitted(world, before, t, opts, run + [p], submitted + [sendings])
  {
    LogsMore(before, mid, world.log, Concat(submitted), sendings, t, m, world.clock);
    ConcatAppend(submitted, sendings);
  }

  /**
   * Drains the redeemable set. Every run ends; it is exactly the chain of passes in which each goes
   * on from the one before, and it stops at the first that does not. Each condition counted as
   * redeemed emptied a held token that no other count did, the cap on conditions is never exceeded,
   * and when the page-sets read report every held side of a neg-risk condition, none is counted twice.
   * What is submitted is each pass's calls, in serial batches of the size asked for.
   */
  method RedeemAll(world: World, env: Env, opts: RedeemOptions)
    returns (summary: RedeemSummary, ghost run: seq<Pass>, ghost submitted: seq<seq<Submitted>>)
    requires world.answers == env.answers && Sound(env)
    modifies world
    ensures Closed(env, opts, old(world.clock), old(world.state), run, world.state, summary)
    ensures CompleteReports(env, run) ==> DistinctIds(LogOf(run))
    ensures RunSubmitted(world, old(world.log), old(world.clock), opts, run, submitted)
  {
    summary, run, submitted := RedeemSummary(0, 0, 0), [], [];
    ghost var bal0, clock0, log0 := world.state, world.clock, world.log;
    NothingSubmitted(world, opts);
    var more := true;
    while more
      invariant Standing(env, opts, clock0, bal0, run, world.clock, world.state, summary, more)
      invariant RunSubmitted(world, log0, clock0, opts, run, submitted)
      decreases more, |Positive(world.state)|
    {
      ghost var mid, m := world.log, world.clock;
      ghost var p, sendings;
      summary, more, p, sendings := Advance(world, env, opts, summary, clock0, bal0, run);
      PassIsSubmitted(world, log0, mid, clock0, m, opts, run, submitted, p, sendings);
      run, submitted := run + [p], submitted + [sendings];
    }
    if CompleteReports(env, run) {
      CompleteReportsCountOnce(env, opts, clock0, bal0, run);
    }
  }
}
