/**
 * When an undisturbed drain counts one condition twice, read off the balances it begins with and the
 * listings: both sides of the condition are held, the first page-set that names either names only
 * one and has the condition as neg-risk, and a later page-set names the other.
 */
module RedeemSplit {
  import opened Base
  import opened DataPager
  import opened Submission
  import opened Redeem
  import opened RedeemDrain
  import opened RedeemPass
  import opened RedeemCount

  /** The `n`-th page-set names this side of the condition. */
  ghost predicate NamesSide(env: Env, n: nat, cid: Bytes32, yes: bool) {
    var groups := PageGroups(env, n);
    var g := FindGroup(groups, cid);
    g < |groups| && Names(groups[g], yes)
  }

  /** The `n`-th page-set reports the condition as neg-risk. */
  ghost predicate ReportsNegRisk(env: Env, n: nat, cid: Bytes32) {
    var groups := PageGroups(env, n);
    var g := FindGroup(groups, cid);
    g < |groups| && groups[g].negRisk
  }

  ghost predicate NamesNeither(env: Env, n: nat, cid: Bytes32) {
    !NamesSide(env, n, cid, true) && !NamesSide(env, n, cid, false)
  }

  /**
   * Both sides are held at the start; the `i`-th page-set is the first to name either, names only the
   * other side than `yes`, of a neg-risk condition; the `j`-th, later, names that one.
   */
  ghost predicate SplitReport(env: Env, bal0: Balances, passes: nat, cid: Bytes32, yes: bool, i: nat, j: nat) {
    && i < j < passes
    && At(bal0, Side(env.tokens, cid, true)) > 0 && At(bal0, Side(env.tokens, cid, false)) > 0
    && (forall n: nat :: n < i ==> NamesNeither(env, n, cid))
    && NamesSide(env, i, cid, !yes) && !NamesSide(env, i, cid, yes) && ReportsNegRisk(env, i, cid)
    && NamesSide(env, j, cid, yes)
  }

  /** No cap on conditions, no dust floor, and no batch of the run given up. */
  ghost predicate Undisturbed(opts: RedeemOptions, run: seq<Pass>) {
    && opts.maxConditions <= 0 && opts.minSharesRaw <= 1
    && forall n :: 0 <= n < |run| ==> run[n].sent.bad == 0
  }

  /** A run of a sound environment in which nothing is given up. */
  ghost predicate CleanRun(env: Env, opts: RedeemOptions, start: nat, bal0: Balances, run: seq<Pass>) {
    Sound(env) && IsRun(env, opts, start, bal0, run) && Undisturbed(opts, run)
  }

  // ----- one pass -----

  /** Everything a pass of a clean run sends is accepted. */
  lemma AllAccepted(env: Env, opts: RedeemOptions, n: nat, p: Pass)
    requires p == PassAt(env, opts, n, p.start, p.before, p.done) && p.sent.bad == 0
    ensures p.sent.taken == p.calls
  {
    AllTaken(env.tokens, env.answers, p.start, p.before, p.calls, opts);
  }

  lemma {:induction false} RedeemsBy(k: Tokens, calls: seq<RedeemCall>, t: nat) returns (m: nat)
    requires Redeems(k, calls, t)
    ensures m < |calls| && ((Takes(k, calls[m], true) && t == k.yesOf(calls[m].conditionId))
                            || (Takes(k, calls[m], false) && t == k.noOf(calls[m].conditionId)))
  {
    if (Takes(k, calls[0], true) && t == k.yesOf(calls[0].conditionId))
       || (Takes(k, calls[0], false) && t == k.noOf(calls[0].conditionId)) {
      m := 0;
    } else {
      var j := RedeemsBy(k, calls[1..], t);
      m := j + 1;
    }
  }

  lemma {:induction false} RedeemsSplit(k: Tokens, calls: seq<RedeemCall>, n: nat, t: nat)
    requires n <= |calls|
    ensures Redeems(k, calls, t) <==> Redeems(k, calls[..n], t) || Redeems(k, calls[n..], t)
  {
    if n == 0 {
      assert calls[..0] == [] && calls[0..] == calls;
    } else {
      RedeemsSplit(k, calls[1..], n - 1, t);
      assert calls[..n][0] == calls[0] && calls[..n][1..] == calls[1..][..n - 1] && calls[n..] == calls[1..][n - 1..];
    }
  }

  /** Sending leaves alone what no call redeems. */
  lemma {:induction false} SendKeeps(
      k: Tokens, answers: nat -> Answer, t: nat, bal: Balances, calls: seq<RedeemCall>, opts: RedeemOptions, token: nat)
    requires !Redeems(k, calls, token)
    ensures At(SendAll(k, answers, t, bal, calls, opts).bal, token) == At(bal, token)
    decreases |calls|
  {
    if calls != [] {
      var n := ChunkSize(opts, calls);
      var first := SendBatch(k, answers, t, bal, calls[..n], opts);
      RedeemsSplit(k, calls, n, token);
      ExecCallsAt(k, bal, calls[..n], token);
      SendKeeps(k, answers, first.clock, first.bal, calls[n..], opts, token);
    }
  }

  /** A call of a pass is that of a reported group worth redeeming. */
  lemma CallOfGroup(env: Env, opts: RedeemOptions, n: nat, p: Pass, m: nat) returns (g: nat)
    requires Sound(env) && p == PassAt(env, opts, n, p.start, p.before, p.done) && m < |p.calls|
    ensures g < |PageGroups(env, n)| && p.calls[m] == CallOf(RedemptionOf(p.before, PageGroups(env, n)[g]))
    ensures FindGroup(PageGroups(env, n), p.calls[m].conditionId) == g
    ensures Worthwhile(RedemptionOf(p.before, PageGroups(env, n)[g]), opts.minSharesRaw)
  {
    var groups := PageGroups(env, n);
    var rs := Redemptions(groups, p.before, opts.minSharesRaw);
    PageGroupsSound(env, n);
    CappedIsPrefix(rs, opts, p.done);
    assert p.calls[m] == CallsOf(rs)[m];
    g := RedemptionsFromGroups(groups, p.before, opts.minSharesRaw, m);
    GroupIsFound(groups, g);
  }

  lemma SideIsOwn(k: Tokens, cid: Bytes32, yes: bool, d: Bytes32)
    requires DistinctTokens(k)
    ensures Side(k, cid, yes) == k.yesOf(d) ==> yes && cid == d
    ensures Side(k, cid, yes) == k.noOf(d) ==> !yes && cid == d
  {
  }

  /** A pass that counts the condition not, or reports it as neg-risk without the side, keeps the side. */
  lemma SideKept(env: Env, opts: RedeemOptions, n: nat, p: Pass, cid: Bytes32, yes: bool)
    requires Sound(env) && p == PassAt(env, opts, n, p.start, p.before, p.done) && p.sent.bad == 0
    requires !AcceptedIn(p, cid) || (ReportsNegRisk(env, n, cid) && !NamesSide(env, n, cid, yes))
    ensures At(p.sent.bal, Side(env.tokens, cid, yes)) == At(p.before, Side(env.tokens, cid, yes))
  {
    var token := Side(env.tokens, cid, yes);
    AllAccepted(env, opts, n, p);
    if Redeems(env.tokens, p.calls, token) {
      var m := RedeemsBy(env.tokens, p.calls, token);
      SideIsOwn(env.tokens, cid, yes, p.calls[m].conditionId);
      assert p.sent.taken[m].conditionId == cid;
      var g := CallOfGroup(env, opts, n, p, m);
      SidesOfCall(RedemptionOf(p.before, PageGroups(env, n)[g]));
      assert false;
    }
    SendKeeps(env.tokens, env.answers, p.start, p.before, p.calls, opts, token);
  }

  /** A page-set that names a held side of the condition gets it counted. */
  lemma NamedIsAccepted(env: Env, opts: RedeemOptions, n: nat, p: Pass, cid: Bytes32, yes: bool)
    requires Sound(env) && p == PassAt(env, opts, n, p.start, p.before, p.done) && p.sent.bad == 0
    requires opts.maxConditions <= 0 && opts.minSharesRaw <= 1
    requires NamesSide(env, n, cid, yes) && At(p.before, Side(env.tokens, cid, yes)) > 0
    ensures AcceptedIn(p, cid)
  {
    var groups := PageGroups(env, n);
    var g := FindGroup(groups, cid);
    PageGroupsSound(env, n);
    var r := RedemptionOf(p.before, groups[g]);
    assert Worthwhile(r, opts.minSharesRaw);
    var m := WorthwhileIsPlanned(groups, p.before, opts.minSharesRaw, g);
    AllAccepted(env, opts, n, p);
    assert p.sent.taken[m] == CallOf(r);
  }

  /** After a pass nothing it names is held. */
  lemma NamedIsEmptied(env: Env, opts: RedeemOptions, n: nat, p: Pass, cid: Bytes32, yes: bool)
    requires Sound(env) && p == PassAt(env, opts, n, p.start, p.before, p.done) && p.sent.bad == 0
    requires opts.maxConditions <= 0 && opts.minSharesRaw <= 1 && NamesSide(env, n, cid, yes)
    ensures At(p.sent.bal, Side(env.tokens, cid, yes)) == 0
  {
    PageGroupsSound(env, n);
    PassEmpties(env, opts, n, p);
    var g := FindGroup(PageGroups(env, n), cid);
    assert HeldSide(p.sent.bal, PageGroups(env, n)[g].yesToken) == 0;
  }

  // ----- along a clean run -----

  lemma {:induction false} FirstBegins(
      env: Env, opts: RedeemOptions, start: nat, bal0: Balances, run: seq<Pass>)
    requires IsRun(env, opts, start, bal0, run) && run != []
    ensures run[0].before == bal0
  {
    if |run| > 1 {
      FirstBegins(env, opts, start, bal0, run[..|run| - 1]);
    }
  }

  /** Balances before a pass come down from the start. */
  lemma HeldFromStart(
      env: Env, opts: RedeemOptions, start: nat, bal0: Balances, run: seq<Pass>, n: nat, t: nat)
    requires CleanRun(env, opts, start, bal0, run) && n < |run| && At(run[n].before, t) > 0
    ensures At(bal0, t) > 0
  {
    FirstBegins(env, opts, start, bal0, run);
    RunIsChained(env, opts, start, bal0, run);
    if n > 0 {
      assert Chained(run, 0);
      RunDrains(run, 0, n);
      HeldBefore(run[0].sent.bal, run[n].before, t);
      HeldBefore(run[0].before, run[0].sent.bal, t);
    }
  }

  lemma HeldEarlier(
      env: Env, opts: RedeemOptions, start: nat, bal0: Balances, run: seq<Pass>, m: nat, n: nat, t: nat)
    requires CleanRun(env, opts, start, bal0, run) && m < n < |run| && At(run[n].before, t) > 0
    ensures At(run[m].sent.bal, t) > 0
  {
    RunIsChained(env, opts, start, bal0, run);
    RunDrains(run, m, n);
    HeldBefore(run[m].sent.bal, run[n].before, t);
  }

  /** What two passes that both count a condition were told: the earlier leaves out a held side, the later names it. */
  lemma TwicePages(
      env: Env, opts: RedeemOptions, start: nat, bal0: Balances, run: seq<Pass>, i: nat, j: nat, cid: Bytes32)
    returns (yes: bool)
    requires CleanRun(env, opts, start, bal0, run) && CountedTwice(run, i, j, cid)
    ensures NamesSide(env, i, cid, !yes) && !NamesSide(env, i, cid, yes) && ReportsNegRisk(env, i, cid)
    ensures NamesSide(env, j, cid, yes)
    ensures At(run[i].before, Side(env.tokens, cid, true)) > 0 && At(run[i].before, Side(env.tokens, cid, false)) > 0
  {
    AcceptedTwiceIsSplit(env, opts, start, bal0, run, i, j, cid);
    RunAt(env, opts, start, bal0, run, i);
    var x := AcceptedGroup(env, opts, i, run[i], cid);
    var group, later := PageGroups(env, i)[x], PageGroups(env, j)[FindGroup(PageGroups(env, j), cid)];
    PageGroupsSound(env, i);
    yes :| OmitsHeld(env.tokens, run[i].before, group, yes) && Names(later, yes);
    var other := NamesHeldSide(env.tokens, run[i].before, PageGroups(env, i), x, opts.minSharesRaw);
    assert other == !yes;
  }

  /** A condition counted twice was split in its reports. */
  lemma TwiceIsSplit(
      env: Env, opts: RedeemOptions, start: nat, bal0: Balances, run: seq<Pass>, i: nat, j: nat, cid: Bytes32)
    returns (yes: bool)
    requires CleanRun(env, opts, start, bal0, run) && CountedTwice(run, i, j, cid)
    ensures SplitReport(env, bal0, |run|, cid, yes, i, j)
  {
    yes := TwicePages(env, opts, start, bal0, run, i, j, cid);
    HeldFromStart(env, opts, start, bal0, run, i, Side(env.tokens, cid, true));
    HeldFromStart(env, opts, start, bal0, run, i, Side(env.tokens, cid, false));
    forall n: nat | n < i ensures NamesNeither(env, n, cid) {
      EarlierNamesNeither(env, opts, start, bal0, run, n, i, cid);
    }
  }

  lemma EarlierNamesNeither(
      env: Env, opts: RedeemOptions, start: nat, bal0: Balances, run: seq<Pass>, n: nat, i: nat, cid: Bytes32)
    requires CleanRun(env, opts, start, bal0, run) && n < i < |run|
    requires At(run[i].before, Side(env.tokens, cid, true)) > 0 && At(run[i].before, Side(env.tokens, cid, false)) > 0
    ensures NamesNeither(env, n, cid)
  {
    RunAt(env, opts, start, bal0, run, n);
    HeldEarlier(env, opts, start, bal0, run, n, i, Side(env.tokens, cid, true));
    HeldEarlier(env, opts, start, bal0, run, n, i, Side(env.tokens, cid, false));
    forall yes: bool ensures !NamesSide(env, n, cid, yes) {
      if NamesSide(env, n, cid, yes) {
        NamedIsEmptied(env, opts, n, run[n], cid, yes);
      }
    }
  }

  /** A side goes into the next pass as it was, when this one keeps it. */
  lemma KeptThrough(
      env: Env, opts: RedeemOptions, start: nat, bal0: Balances, run: seq<Pass>, n: nat, cid: Bytes32, yes: bool)
    requires CleanRun(env, opts, start, bal0, run) && n + 1 < |run|
    requires !AcceptedIn(run[n], cid)
    ensures At(run[n + 1].before, Side(env.tokens, cid, yes)) == At(run[n].before, Side(env.tokens, cid, yes))
  {
    RunAt(env, opts, start, bal0, run, n + 1);
    RunAt(env, opts, start, bal0, run, n);
    SideKept(env, opts, n, run[n], cid, yes);
  }

  lemma UnnamedThrough(
      env: Env, opts: RedeemOptions, start: nat, bal0: Balances, run: seq<Pass>, n: nat, cid: Bytes32)
    requires CleanRun(env, opts, start, bal0, run) && n < |run| && NamesNeither(env, n, cid)
    ensures !AcceptedIn(run[n], cid)
  {
    RunAt(env, opts, start, bal0, run, n);
    UnnamedNotAccepted(env, opts, n, run[n], cid);
  }

  lemma UnnamedNotAccepted(env: Env, opts: RedeemOptions, n: nat, p: Pass, cid: Bytes32)
    requires Sound(env) && p == PassAt(env, opts, n, p.start, p.before, p.done) && NamesNeither(env, n, cid)
    ensures !AcceptedIn(p, cid)
  {
    if AcceptedIn(p, cid) {
      var g := AcceptedGroup(env, opts, n, p, cid);
      PageGroupsSound(env, n);
      var yes := NamesHeldSide(env.tokens, p.before, PageGroups(env, n), g, opts.minSharesRaw);
      assert NamesSide(env, n, cid, yes);
      assert false;
    }
  }

  lemma NextBefore(
      env: Env, opts: RedeemOptions, start: nat, bal0: Balances, run: seq<Pass>, i: nat)
    requires CleanRun(env, opts, start, bal0, run) && i + 1 < |run|
    ensures run[i + 1].before == run[i].sent.bal
  {
    RunAt(env, opts, start, bal0, run, i + 1);
  }

  /** The side stays held through a pass that does not count the condition. */
  ghost predicate Keeps(env: Env, run: seq<Pass>, n: nat, cid: Bytes32, yes: bool)
    requires n + 1 < |run|
  {
    var t := Side(env.tokens, cid, yes);
    run[n + 1].before == run[n].sent.bal
    && (!AcceptedIn(run[n], cid) ==> At(run[n].sent.bal, t) == At(run[n].before, t))
  }

  lemma RunKeeps(
      env: Env, opts: RedeemOptions, start: nat, bal0: Balances, run: seq<Pass>, cid: Bytes32, yes: bool)
    requires CleanRun(env, opts, start, bal0, run)
    ensures forall n: nat :: n + 1 < |run| ==> Keeps(env, run, n, cid, yes)
  {
    forall n: nat | n + 1 < |run| ensures Keeps(env, run, n, cid, yes) {
      RunAt(env, opts, start, bal0, run, n + 1);
      if !AcceptedIn(run[n], cid) {
        KeptThrough(env, opts, start, bal0, run, n, cid, yes);
      }
    }
  }

  /** While no pass counts the condition, both its sides stay as they were. */
  lemma {:induction false} UncountedStays(env: Env, run: seq<Pass>, i: nat, cid: Bytes32, yes: bool)
    requires i < |run| && forall n: nat :: n + 1 < |run| ==> Keeps(env, run, n, cid, yes)
    requires forall n: nat :: n < i ==> !AcceptedIn(run[n], cid)
    ensures At(run[i].before, Side(env.tokens, cid, yes)) == At(run[0].before, Side(env.tokens, cid, yes))
    decreases i
  {
    if i > 0 {
      assert Keeps(env, run, i - 1, cid, yes);
      UncountedStays(env, run, i - 1, cid, yes);
    }
  }

  /** While no page-set names the condition, both its sides stay as they were at the start. */
  lemma UnnamedStays(
      env: Env, opts: RedeemOptions, start: nat, bal0: Balances, run: seq<Pass>, i: nat, cid: Bytes32, yes: bool)
    requires CleanRun(env, opts, start, bal0, run) && i < |run|
    requires forall n: nat :: n < i ==> NamesNeither(env, n, cid)
    ensures At(run[i].before, Side(env.tokens, cid, yes)) == At(bal0, Side(env.tokens, cid, yes))
  {
    forall n: nat | n < i ensures !AcceptedIn(run[n], cid) {
      UnnamedThrough(env, opts, start, bal0, run, n, cid);
    }
    RunKeeps(env, opts, start, bal0, run, cid, yes);
    UncountedStays(env, run, i, cid, yes);
    FirstBegins(env, opts, start, bal0, run);
  }

  /** A side held after one pass is held before a later one, unless a pass between counts the condition. */
  lemma {:induction false} HeldUntilAccepted(env: Env, run: seq<Pass>, i: nat, m: nat, cid: Bytes32, yes: bool)
    requires i < m < |run| && forall n: nat :: n + 1 < |run| ==> Keeps(env, run, n, cid, yes)
    requires At(run[i].sent.bal, Side(env.tokens, cid, yes)) > 0
    requires forall n: nat :: i < n < m ==> !AcceptedIn(run[n], cid)
    ensures At(run[m].before, Side(env.tokens, cid, yes)) > 0
    decreases m
  {
    assert Keeps(env, run, m - 1, cid, yes);
    if i < m - 1 {
      HeldUntilAccepted(env, run, i, m - 1, cid, yes);
    }
  }

  /** A condition split in its reports is counted twice. */
  lemma SplitIsTwice(
      env: Env, opts: RedeemOptions, start: nat, bal0: Balances, run: seq<Pass>, cid: Bytes32, yes: bool,
      i: nat, j: nat)
    requires CleanRun(env, opts, start, bal0, run) && SplitReport(env, bal0, |run|, cid, yes, i, j)
    ensures SomeCountedTwice(run)
  {
    RunAt(env, opts, start, bal0, run, i);
    UnnamedStays(env, opts, start, bal0, run, i, cid, yes);
    UnnamedStays(env, opts, start, bal0, run, i, cid, !yes);
    NamedIsAccepted(env, opts, i, run[i], cid, !yes);
    SideKept(env, opts, i, run[i], cid, yes);
    if n: nat :| i < n < j && AcceptedIn(run[n], cid) {
      assert CountedTwice(run, i, n, cid);
    } else {
      RunAt(env, opts, start, bal0, run, j);
      RunKeeps(env, opts, start, bal0, run, cid, yes);
      HeldUntilAccepted(env, run, i, j, cid, yes);
      NamedIsAccepted(env, opts, j, run[j], cid, yes);
      assert CountedTwice(run, i, j, cid);
    }
  }

  /**
   * An undisturbed run counts a condition twice if and only if both its sides are held at the start,
   * the first page-set to name either names only one and has the condition as neg-risk, and a later
   * page-set the run reads names the other.
   */
  lemma CountsTwiceIffSplit(env: Env, opts: RedeemOptions, start: nat, bal0: Balances, run: seq<Pass>)
    requires Sound(env) && IsRun(env, opts, start, bal0, run) && Undisturbed(opts, run)
    ensures !DistinctIds(LogOf(run)) <==>
      exists cid, yes: bool, i: nat, j: nat :: SplitReport(env, bal0, |run|, cid, yes, i, j)
  {
    TakenDistinct(env, opts, start, bal0, run);
    LogRepeatsIff(run);
    if SomeCountedTwice(run) {
      var i: nat, j: nat, cid :| CountedTwice(run, i, j, cid);
      var yes := TwiceIsSplit(env, opts, start, bal0, run, i, j, cid);
    }
    if cid, yes: bool, i: nat, j: nat :| SplitReport(env, bal0, |run|, cid, yes, i, j) {
      SplitIsTwice(env, opts, start, bal0, run, cid, yes, i, j);
    }
  }
}
