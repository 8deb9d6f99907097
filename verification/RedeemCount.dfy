/**
 * What a drain counts, pass by pass, and when it counts one condition twice: only when an earlier
 * page-set reported a neg-risk condition without one of its held sides and a later one names that side.
 */
module RedeemCount {
  import opened Base
  import opened DataPager
  import opened Submission
  import opened Redeem
  import opened RedeemDrain
  import opened RedeemPass

  /** The groups of the page-set the `n`-th pass reads. */
  ghost function PageGroups(env: Env, n: nat): seq<RedeemGroup> {
    Groups(PageSet(env.listings(n)))
  }

  /** The pass redeemed the condition, as far as the relayer reports. */
  ghost predicate AcceptedIn(p: Pass, cid: Bytes32) {
    exists m :: 0 <= m < |p.sent.taken| && p.sent.taken[m].conditionId == cid
  }

  /** The sides of the condition that are held but not reported in the group. */
  ghost predicate OmitsHeld(k: Tokens, bal: Balances, g: RedeemGroup, yes: bool) {
    if yes then g.yesToken.None? && At(bal, k.yesOf(g.conditionId)) > 0
    else g.noToken.None? && At(bal, k.noOf(g.conditionId)) > 0
  }

  predicate Names(g: RedeemGroup, yes: bool) {
    if yes then g.yesToken.Some? else g.noToken.Some?
  }

  /**
   * The condition is reported in both page-sets: by the earlier one as neg-risk and without one of
   * its held sides, by the later one with that side.
   */
  ghost predicate SplitAcross(env: Env, run: seq<Pass>, i: nat, j: nat, cid: Bytes32)
    requires i < |run|
  {
    var a, b := PageGroups(env, i), PageGroups(env, j);
    var x, y := FindGroup(a, cid), FindGroup(b, cid);
    x < |a| && y < |b| && a[x].negRisk
    && exists yes :: OmitsHeld(env.tokens, run[i].before, a[x], yes) && Names(b[y], yes)
  }

  // ----- what an accepted call tells -----

  lemma GroupIsFound(groups: seq<RedeemGroup>, g: nat)
    requires DistinctGroups(groups) && g < |groups|
    ensures FindGroup(groups, groups[g].conditionId) == g
  {
  }

  lemma PageGroupsSound(env: Env, n: nat)
    requires Sound(env)
    ensures DistinctGroups(PageGroups(env, n)) && TruthfulGroups(env.tokens, PageGroups(env, n))
  {
    PrefixTruthful(env.tokens, env.listings(n), Reach(env.listings(n), 0));
    GroupsWellFormed(env.tokens, PageSet(env.listings(n)));
  }

  /** An accepted condition is a reported group, worth redeeming, whose call has landed. */
  lemma AcceptedGroup(env: Env, opts: RedeemOptions, n: nat, p: Pass, cid: Bytes32) returns (g: nat)
    requires Sound(env) && p == PassAt(env, opts, n, p.start, p.before, p.done) && AcceptedIn(p, cid)
    ensures g < |PageGroups(env, n)| && PageGroups(env, n)[g].conditionId == cid
    ensures FindGroup(PageGroups(env, n), cid) == g
    ensures Worthwhile(RedemptionOf(p.before, PageGroups(env, n)[g]), opts.minSharesRaw)
    ensures AllLanded(env.tokens, p.sent.bal, [CallOf(RedemptionOf(p.before, PageGroups(env, n)[g]))])
  {
    var groups := PageGroups(env, n);
    var rs := Redemptions(groups, p.before, opts.minSharesRaw);
    PageGroupsSound(env, n);
    PassSends(env, opts, n, p);
    CappedIsPrefix(rs, opts, p.done);
    var m :| 0 <= m < |p.sent.taken| && p.sent.taken[m].conditionId == cid;
    var c := p.sent.taken[m];
    var j: nat :| j < |p.calls| && p.calls[j] == c;
    assert c == CallsOf(rs)[j] == CallOf(rs[j]);
    g := RedemptionsFromGroups(groups, p.before, opts.minSharesRaw, j);
    GroupIsFound(groups, g);
  }

  function Side(k: Tokens, cid: Bytes32, yes: bool): nat {
    if yes then k.yesOf(cid) else k.noOf(cid)
  }

  /** A worthwhile group names a side that is held. */
  lemma NamesHeldSide(k: Tokens, bal: Balances, groups: seq<RedeemGroup>, g: nat, minRaw: int) returns (yes: bool)
    requires g < |groups| && TruthfulGroups(k, groups) && Worthwhile(RedemptionOf(bal, groups[g]), minRaw)
    ensures Names(groups[g], yes) && At(bal, Side(k, groups[g].conditionId, yes)) > 0
  {
    yes := HeldSide(bal, groups[g].yesToken) > 0;
  }

  /** A side still held after the group's call landed was held before, and not reported, of a neg-risk condition. */
  lemma StillHeldWasOmitted(
      k: Tokens, before: Balances, after: Balances, groups: seq<RedeemGroup>, g: nat, yes: bool)
    requires g < |groups| && TruthfulGroups(k, groups) && Drained(before, after)
    requires AllLanded(k, after, [CallOf(RedemptionOf(before, groups[g]))])
    requires At(after, Side(k, groups[g].conditionId, yes)) > 0
    ensures groups[g].negRisk && OmitsHeld(k, before, groups[g], yes)
  {
    var r := RedemptionOf(before, groups[g]);
    var t := Side(k, groups[g].conditionId, yes);
    SidesOfCall(r);
    assert [CallOf(r)][0] == CallOf(r);
    assert At(after, t) == At(before, t) || At(after, t) == 0;
  }

  // ----- along a run -----

  lemma LastBegins(env: Env, opts: RedeemOptions, start: nat, bal0: Balances, run: seq<Pass>)
    requires IsRun(env, opts, start, bal0, run) && run != []
    ensures var n := |run| - 1;
      && run[n] == PassAt(env, opts, n, run[n].start, run[n].before, run[n].done)
      && (n > 0 ==> run[n].before == run[n - 1].sent.bal)
  {
  }

  lemma {:induction false} RunAt(env: Env, opts: RedeemOptions, start: nat, bal0: Balances, run: seq<Pass>, n: nat)
    requires IsRun(env, opts, start, bal0, run) && n < |run|
    ensures run[n] == PassAt(env, opts, n, run[n].start, run[n].before, run[n].done)
    ensures n > 0 ==> run[n].before == run[n - 1].sent.bal
  {
    if n < |run| - 1 {
      var front := run[..|run| - 1];
      RunAt(env, opts, start, bal0, front, n);
      assert front[n] == run[n] && (n > 0 ==> front[n - 1] == run[n - 1]);
    } else {
      LastBegins(env, opts, start, bal0, run);
    }
  }

  /** A pass only drains, and begins with what the one before it left. */
  ghost predicate Chained(run: seq<Pass>, n: nat)
    requires n < |run|
  {
    Drained(run[n].before, run[n].sent.bal) && (n > 0 ==> run[n].before == run[n - 1].sent.bal)
  }

  lemma RunIsChained(env: Env, opts: RedeemOptions, start: nat, bal0: Balances, run: seq<Pass>)
    requires Sound(env) && IsRun(env, opts, start, bal0, run)
    ensures forall n: nat :: n < |run| ==> Chained(run, n)
  {
    forall n: nat | n < |run| ensures Chained(run, n) {
      RunAt(env, opts, start, bal0, run, n);
      PassSends(env, opts, n, run[n]);
    }
  }

  lemma {:induction false} RunDrains(run: seq<Pass>, i: nat, j: nat)
    requires i < j < |run| && forall n: nat :: n < |run| ==> Chained(run, n)
    ensures Drained(run[i].sent.bal, run[j].before)
    decreases j
  {
    assert Chained(run, j);
    if i < j - 1 {
      RunDrains(run, i, j - 1);
      assert Chained(run, j - 1);
      DrainedTrans(run[i].sent.bal, run[j - 1].before, run[j - 1].sent.bal);
    }
  }

  lemma HeldBefore(before: Balances, after: Balances, t: nat)
    requires Drained(before, after) && At(after, t) > 0
    ensures At(before, t) == At(after, t)
  {
    assert At(after, t) == At(before, t) || At(after, t) == 0;
  }

  /** A condition accepted in two passes was split: the earlier page-set left out a held side the later one names. */
  lemma AcceptedTwiceIsSplit(
      env: Env, opts: RedeemOptions, start: nat, bal0: Balances, run: seq<Pass>, i: nat, j: nat, cid: Bytes32)
    requires Sound(env) && IsRun(env, opts, start, bal0, run) && i < j < |run|
    requires AcceptedIn(run[i], cid) && AcceptedIn(run[j], cid)
    ensures SplitAcross(env, run, i, j, cid)
  {
    RunAt(env, opts, start, bal0, run, i);
    RunAt(env, opts, start, bal0, run, j);
    var x := AcceptedGroup(env, opts, i, run[i], cid);
    var y := AcceptedGroup(env, opts, j, run[j], cid);
    PageGroupsSound(env, i);
    PageGroupsSound(env, j);
    var yes := NamesHeldSide(env.tokens, run[j].before, PageGroups(env, j), y, opts.minSharesRaw);
    RunIsChained(env, opts, start, bal0, run);
    assert Chained(run, i);
    RunDrains(run, i, j);
    HeldBefore(run[i].sent.bal, run[j].before, Side(env.tokens, cid, yes));
    StillHeldWasOmitted(env.tokens, run[i].before, run[i].sent.bal, PageGroups(env, i), x, yes);
  }

  // ----- the log -----

  lemma IdsMember(calls: seq<RedeemCall>, cid: Bytes32)
    ensures cid in Ids(calls) <==> exists m :: 0 <= m < |calls| && calls[m].conditionId == cid
  {
    if cid in Ids(calls) {
      var m :| 0 <= m < |Ids(calls)| && Ids(calls)[m] == cid;
      assert calls[m].conditionId == cid;
    }
    if m :| 0 <= m < |calls| && calls[m].conditionId == cid {
      assert Ids(calls)[m] == cid;
    }
  }

  /** Some pass accepted the condition. */
  ghost predicate AcceptedBy(run: seq<Pass>, cid: Bytes32) {
    exists i :: 0 <= i < |run| && AcceptedIn(run[i], cid)
  }

  lemma AcceptedByStep(run: seq<Pass>, cid: Bytes32)
    requires run != []
    ensures AcceptedBy(run, cid) <==> AcceptedBy(run[..|run| - 1], cid) || AcceptedIn(run[|run| - 1], cid)
  {
    var front := run[..|run| - 1];
    if AcceptedBy(front, cid) {
      var i :| 0 <= i < |front| && AcceptedIn(front[i], cid);
      assert AcceptedIn(run[i], cid);
    }
    if AcceptedBy(run, cid) {
      var i :| 0 <= i < |run| && AcceptedIn(run[i], cid);
      assert i < |front| ==> AcceptedIn(front[i], cid);
    }
  }

  lemma {:induction false} LogMembers(run: seq<Pass>, cid: Bytes32)
    ensures cid in LogOf(run) <==> AcceptedBy(run, cid)
  {
    if run != [] {
      LogMembers(run[..|run| - 1], cid);
      AcceptedByStep(run, cid);
      IdsMember(run[|run| - 1].sent.taken, cid);
    }
  }

  ghost predicate Disjoint(a: seq<Bytes32>, b: seq<Bytes32>) {
    forall x :: x in a ==> x !in b
  }

  lemma DistinctConcat(a: seq<Bytes32>, b: seq<Bytes32>)
    ensures DistinctIds(a + b) <==> DistinctIds(a) && DistinctIds(b) && Disjoint(a, b)
  {
    var s := a + b;
    if DistinctIds(s) {
      assert forall i :: 0 <= i < |a| ==> a[i] == s[i];
      assert forall j :: 0 <= j < |b| ==> b[j] == s[|a| + j];
    }
    if DistinctIds(a) && DistinctIds(b) && Disjoint(a, b) {
      forall i, j | 0 <= i < j < |s| ensures s[i] != s[j] {
        if i < |a| <= j {
          assert a[i] in a && b[j - |a|] in b;
        }
      }
    }
  }

  /** Two passes accepted the condition. */
  ghost predicate CountedTwice(run: seq<Pass>, i: nat, j: nat, cid: Bytes32) {
    i < j < |run| && AcceptedIn(run[i], cid) && AcceptedIn(run[j], cid)
  }

  ghost predicate SomeCountedTwice(run: seq<Pass>) {
    exists i: nat, j: nat, cid :: CountedTwice(run, i, j, cid)
  }

  /** The pass accepted a condition that an earlier one had. */
  ghost predicate AcceptedAgain(past: seq<Pass>, p: Pass, cid: Bytes32) {
    AcceptedBy(past, cid) && AcceptedIn(p, cid)
  }

  ghost predicate SomeAgain(past: seq<Pass>, p: Pass) {
    exists cid :: AcceptedAgain(past, p, cid)
  }

  lemma CountedTwiceStep(run: seq<Pass>)
    requires run != []
    ensures SomeCountedTwice(run)
       <==> SomeCountedTwice(run[..|run| - 1]) || SomeAgain(run[..|run| - 1], run[|run| - 1])
  {
    var n := |run| - 1;
    var front := run[..n];
    if SomeCountedTwice(run) {
      var i: nat, j: nat, cid :| CountedTwice(run, i, j, cid);
      if j < n {
        assert CountedTwice(front, i, j, cid);
      } else {
        assert AcceptedIn(front[i], cid);
        assert AcceptedAgain(front, run[n], cid);
      }
    }
    if SomeCountedTwice(front) {
      var i: nat, j: nat, cid :| CountedTwice(front, i, j, cid);
      assert CountedTwice(run, i, j, cid);
    }
    if SomeAgain(front, run[n]) {
      var cid :| AcceptedAgain(front, run[n], cid);
      var i: nat :| i < |front| && AcceptedIn(front[i], cid);
      assert CountedTwice(run, i, n, cid);
    }
  }

  lemma AgainIff(past: seq<Pass>, p: Pass)
    ensures SomeAgain(past, p) <==> !Disjoint(LogOf(past), Ids(p.sent.taken))
  {
    if SomeAgain(past, p) {
      var cid :| AcceptedAgain(past, p, cid);
      LogMembers(past, cid);
      IdsMember(p.sent.taken, cid);
    }
    if !Disjoint(LogOf(past), Ids(p.sent.taken)) {
      var cid :| cid in LogOf(past) && cid in Ids(p.sent.taken);
      LogMembers(past, cid);
      IdsMember(p.sent.taken, cid);
      assert AcceptedAgain(past, p, cid);
    }
  }

  /** The log repeats a condition exactly when two passes accepted it, since no pass accepts one twice. */
  lemma {:induction false} LogRepeatsIff(run: seq<Pass>)
    requires forall n :: 0 <= n < |run| ==> DistinctIds(Ids(run[n].sent.taken))
    ensures !DistinctIds(LogOf(run)) <==> SomeCountedTwice(run)
  {
    if run != [] {
      var front, p := run[..|run| - 1], run[|run| - 1];
      LogRepeatsIff(front);
      DistinctConcat(LogOf(front), Ids(p.sent.taken));
      CountedTwiceStep(run);
      AgainIff(front, p);
    }
  }

  lemma TakenDistinct(env: Env, opts: RedeemOptions, start: nat, bal0: Balances, run: seq<Pass>)
    requires Sound(env) && IsRun(env, opts, start, bal0, run)
    ensures forall n :: 0 <= n < |run| ==> DistinctIds(Ids(run[n].sent.taken))
  {
    forall n: nat | n < |run| ensures DistinctIds(Ids(run[n].sent.taken)) {
      RunAt(env, opts, start, bal0, run, n);
      PassSends(env, opts, n, run[n]);
    }
  }

  // ----- acceptance as the relayer's answers decide it -----

  /** Of `n` calls sent from `t` on, the batch that holds the `m`-th is accepted in the end. */
  predicate AcceptedAt(answers: nat -> Answer, t: nat, opts: RedeemOptions, n: nat, m: nat)
    decreases n
  {
    m < n
    && var size := Min(Max(opts.batchSize, 1), n);
    var end := BatchEnd(answers, t, opts.walletBusyMaxRetries, opts.batchMaxRetries);
    if m < size then answers(end).Accepted? else AcceptedAt(answers, end + 1, opts, n - size, m - size)
  }

  /** Some call for the condition is among these, in an accepted batch. */
  ghost predicate SomeAccepted(
    answers: nat -> Answer, t: nat, opts: RedeemOptions, calls: seq<RedeemCall>, cid: Bytes32)
  {
    exists m: nat :: m < |calls| && calls[m].conditionId == cid && AcceptedAt(answers, t, opts, |calls|, m)
  }

  lemma AcceptedHere(
      answers: nat -> Answer, t: nat, opts: RedeemOptions, calls: seq<RedeemCall>, cid: Bytes32, end: nat)
    requires calls != [] && end == BatchEnd(answers, t, opts.walletBusyMaxRetries, opts.batchMaxRetries)
    requires answers(end).Accepted? && cid in Ids(calls[..ChunkSize(opts, calls)])
    ensures SomeAccepted(answers, t, opts, calls, cid)
  {
    var n := ChunkSize(opts, calls);
    IdsMember(calls[..n], cid);
    var m: nat :| m < |calls[..n]| && calls[..n][m].conditionId == cid;
    assert calls[m] == calls[..n][m] && AcceptedAt(answers, t, opts, |calls|, m);
  }

  lemma AcceptedLater(
      answers: nat -> Answer, t: nat, opts: RedeemOptions, calls: seq<RedeemCall>, cid: Bytes32, end: nat)
    requires calls != [] && end == BatchEnd(answers, t, opts.walletBusyMaxRetries, opts.batchMaxRetries)
    requires SomeAccepted(answers, end + 1, opts, calls[ChunkSize(opts, calls)..], cid)
    ensures SomeAccepted(answers, t, opts, calls, cid)
  {
    var n := ChunkSize(opts, calls);
    var m: nat :| m < |calls[n..]| && calls[n..][m].conditionId == cid
                  && AcceptedAt(answers, end + 1, opts, |calls[n..]|, m);
    assert calls[n + m] == calls[n..][m] && AcceptedAt(answers, t, opts, |calls|, n + m);
  }

  lemma AcceptedCall(
      answers: nat -> Answer, t: nat, opts: RedeemOptions, calls: seq<RedeemCall>, m: nat, n: nat, end: nat)
    requires m < |calls| && n == ChunkSize(opts, calls)
    requires end == BatchEnd(answers, t, opts.walletBusyMaxRetries, opts.batchMaxRetries)
    ensures m < n ==> (AcceptedAt(answers, t, opts, |calls|, m) <==> answers(end).Accepted?)
    ensures n <= m ==>
      (AcceptedAt(answers, t, opts, |calls|, m) <==> AcceptedAt(answers, end + 1, opts, |calls[n..]|, m - n))
  {
  }

  lemma AcceptedSomewhere(
      answers: nat -> Answer, t: nat, opts: RedeemOptions, calls: seq<RedeemCall>, cid: Bytes32, end: nat)
    requires calls != [] && end == BatchEnd(answers, t, opts.walletBusyMaxRetries, opts.batchMaxRetries)
    requires SomeAccepted(answers, t, opts, calls, cid)
    ensures (answers(end).Accepted? && cid in Ids(calls[..ChunkSize(opts, calls)]))
            || SomeAccepted(answers, end + 1, opts, calls[ChunkSize(opts, calls)..], cid)
  {
    var n := ChunkSize(opts, calls);
    var m: nat :| m < |calls| && calls[m].conditionId == cid && AcceptedAt(answers, t, opts, |calls|, m);
    AcceptedCall(answers, t, opts, calls, m, n, end);
    if m < n {
      IdsMember(calls[..n], cid);
      assert calls[..n][m] == calls[m];
    } else {
      assert calls[n..][m - n] == calls[m];
    }
  }

  lemma SomeAcceptedSplit(
      answers: nat -> Answer, t: nat, opts: RedeemOptions, calls: seq<RedeemCall>, cid: Bytes32, end: nat)
    requires calls != [] && end == BatchEnd(answers, t, opts.walletBusyMaxRetries, opts.batchMaxRetries)
    ensures SomeAccepted(answers, t, opts, calls, cid)
       <==> (answers(end).Accepted? && cid in Ids(calls[..ChunkSize(opts, calls)]))
            || SomeAccepted(answers, end + 1, opts, calls[ChunkSize(opts, calls)..], cid)
  {
    if SomeAccepted(answers, t, opts, calls, cid) {
      AcceptedSomewhere(answers, t, opts, calls, cid, end);
    }
    if answers(end).Accepted? && cid in Ids(calls[..ChunkSize(opts, calls)]) {
      AcceptedHere(answers, t, opts, calls, cid, end);
    }
    if SomeAccepted(answers, end + 1, opts, calls[ChunkSize(opts, calls)..], cid) {
      AcceptedLater(answers, t, opts, calls, cid, end);
    }
  }

  /** A batch counts its conditions exactly when it is accepted in the end. */
  lemma BatchTaken(
      k: Tokens, answers: nat -> Answer, t: nat, bal: Balances, chunk: seq<RedeemCall>, opts: RedeemOptions,
      cid: Bytes32)
    ensures var end := BatchEnd(answers, t, opts.walletBusyMaxRetries, opts.batchMaxRetries);
      var sent := SendBatch(k, answers, t, bal, chunk, opts);
      sent.clock == end + 1 && (cid in Ids(sent.taken) <==> answers(end).Accepted? && cid in Ids(chunk))
  {
  }

  /** What is counted is what the first batch counts or a later one does. */
  lemma TakenSplit(
      k: Tokens, answers: nat -> Answer, t: nat, bal: Balances, calls: seq<RedeemCall>, opts: RedeemOptions,
      cid: Bytes32, first: Sent)
    requires calls != [] && first == SendBatch(k, answers, t, bal, calls[..ChunkSize(opts, calls)], opts)
    ensures cid in Ids(SendAll(k, answers, t, bal, calls, opts).taken)
       <==> cid in Ids(first.taken)
            || cid in Ids(SendAll(k, answers, first.clock, first.bal, calls[ChunkSize(opts, calls)..], opts).taken)
  {
    var later := SendAll(k, answers, first.clock, first.bal, calls[ChunkSize(opts, calls)..], opts);
    assert SendAll(k, answers, t, bal, calls, opts) == Joined(first, later);
    IdsOfBoth(first.taken, later.taken, cid);
  }

  /** What is counted is what the first batch counts, if it is accepted, or what is counted after it. */
  lemma TakenNext(
      k: Tokens, answers: nat -> Answer, t: nat, bal: Balances, calls: seq<RedeemCall>, opts: RedeemOptions,
      cid: Bytes32, end: nat, after: Balances)
    requires calls != [] && end == BatchEnd(answers, t, opts.walletBusyMaxRetries, opts.batchMaxRetries)
    requires after == SendBatch(k, answers, t, bal, calls[..ChunkSize(opts, calls)], opts).bal
    ensures cid in Ids(SendAll(k, answers, t, bal, calls, opts).taken)
       <==> (answers(end).Accepted? && cid in Ids(calls[..ChunkSize(opts, calls)]))
            || cid in Ids(SendAll(k, answers, end + 1, after, calls[ChunkSize(opts, calls)..], opts).taken)
  {
    var chunk := calls[..ChunkSize(opts, calls)];
    BatchTaken(k, answers, t, bal, chunk, opts, cid);
    TakenSplit(k, answers, t, bal, calls, opts, cid, SendBatch(k, answers, t, bal, chunk, opts));
  }

  /** What is counted as redeemed is what the answers accept. */
  lemma {:induction false} TakenIff(
      k: Tokens, answers: nat -> Answer, t: nat, bal: Balances, calls: seq<RedeemCall>, opts: RedeemOptions,
      cid: Bytes32)
    ensures cid in Ids(SendAll(k, answers, t, bal, calls, opts).taken) <==> SomeAccepted(answers, t, opts, calls, cid)
    decreases |calls|
  {
    if calls == [] {
      NothingTaken(k, answers, t, bal, opts, cid);
    } else {
      var n := ChunkSize(opts, calls);
      var end := BatchEnd(answers, t, opts.walletBusyMaxRetries, opts.batchMaxRetries);
      var after := SendBatch(k, answers, t, bal, calls[..n], opts).bal;
      TakenIff(k, answers, end + 1, after, calls[n..], opts, cid);
      TakenNext(k, answers, t, bal, calls, opts, cid, end, after);
      SomeAcceptedSplit(answers, t, opts, calls, cid, end);
    }
  }

  lemma NothingTaken(
      k: Tokens, answers: nat -> Answer, t: nat, bal: Balances, opts: RedeemOptions, cid: Bytes32)
    ensures cid !in Ids(SendAll(k, answers, t, bal, [], opts).taken) && !SomeAccepted(answers, t, opts, [], cid)
  {
  }

  lemma IdsOfBoth(a: seq<RedeemCall>, b: seq<RedeemCall>, cid: Bytes32)
    ensures cid in Ids(a + b) <==> cid in Ids(a) || cid in Ids(b)
  {
    IdsMember(a, cid);
    IdsMember(b, cid);
    IdsMember(a + b, cid);
    if m :| 0 <= m < |a| && a[m].conditionId == cid {
      assert (a + b)[m].conditionId == cid;
    }
    if m :| 0 <= m < |b| && b[m].conditionId == cid {
      assert (a + b)[|a| + m].conditionId == cid;
    }
  }

  /** A pass counts a condition exactly when it sends a call for it and the answers accept that call's batch. */
  lemma AcceptedIff(env: Env, opts: RedeemOptions, n: nat, p: Pass, cid: Bytes32)
    requires p == PassAt(env, opts, n, p.start, p.before, p.done)
    ensures AcceptedIn(p, cid) <==> SomeAccepted(env.answers, p.start, opts, p.calls, cid)
  {
    TakenIff(env.tokens, env.answers, p.start, p.before, p.calls, opts, cid);
    IdsMember(p.sent.taken, cid);
  }

  /**
   * The `i`-th and the `j`-th pass send a call for the condition, in batches the answers accept. The
   * earlier page-set reports it as neg-risk without one of its held sides; the later one names that side.
   */
  ghost predicate SplitAndAccepted(env: Env, opts: RedeemOptions, run: seq<Pass>, i: nat, j: nat, cid: Bytes32) {
    && i < j < |run| && SplitAcross(env, run, i, j, cid)
    && SomeAccepted(env.answers, run[i].start, opts, run[i].calls, cid)
    && SomeAccepted(env.answers, run[j].start, opts, run[j].calls, cid)
  }

  /** Any run, with whatever failures, cap and floor: when a condition is counted twice. */
  lemma CountsTwiceIff(env: Env, opts: RedeemOptions, start: nat, bal0: Balances, run: seq<Pass>)
    requires Sound(env) && IsRun(env, opts, start, bal0, run)
    ensures !DistinctIds(LogOf(run)) <==> exists i: nat, j: nat, cid :: SplitAndAccepted(env, opts, run, i, j, cid)
  {
    TakenDistinct(env, opts, start, bal0, run);
    LogRepeatsIff(run);
    if SomeCountedTwice(run) {
      var i: nat, j: nat, cid :| CountedTwice(run, i, j, cid);
      AcceptedTwiceIsSplit(env, opts, start, bal0, run, i, j, cid);
      AcceptedFromAnswers(env, opts, start, bal0, run, i, cid);
      AcceptedFromAnswers(env, opts, start, bal0, run, j, cid);
      assert SplitAndAccepted(env, opts, run, i, j, cid);
    }
    if i: nat, j: nat, cid :| SplitAndAccepted(env, opts, run, i, j, cid) {
      AcceptedFromAnswers(env, opts, start, bal0, run, i, cid);
      AcceptedFromAnswers(env, opts, start, bal0, run, j, cid);
      assert CountedTwice(run, i, j, cid);
    }
  }

  lemma AcceptedFromAnswers(
      env: Env, opts: RedeemOptions, start: nat, bal0: Balances, run: seq<Pass>, n: nat, cid: Bytes32)
    requires IsRun(env, opts, start, bal0, run) && n < |run|
    ensures AcceptedIn(run[n], cid) <==> SomeAccepted(env.answers, run[n].start, opts, run[n].calls, cid)
  {
    RunAt(env, opts, start, bal0, run, n);
    AcceptedIff(env, opts, n, run[n], cid);
  }

  /** Each page-set the run read reports every held side of the neg-risk conditions it reports. */
  ghost predicate CompleteReports(env: Env, run: seq<Pass>) {
    forall n: nat, g: nat, yes: bool :: n < |run| && g < |PageGroups(env, n)| && PageGroups(env, n)[g].negRisk ==>
      !OmitsHeld(env.tokens, run[n].before, PageGroups(env, n)[g], yes)
  }

  lemma CompleteReportsCountOnce(env: Env, opts: RedeemOptions, start: nat, bal0: Balances, run: seq<Pass>)
    requires Sound(env) && IsRun(env, opts, start, bal0, run) && CompleteReports(env, run)
    ensures DistinctIds(LogOf(run))
  {
    TakenDistinct(env, opts, start, bal0, run);
    LogRepeatsIff(run);
    forall i: nat, j: nat, cid ensures !CountedTwice(run, i, j, cid) {
      if CountedTwice(run, i, j, cid) {
        AcceptedTwiceIsSplit(env, opts, start, bal0, run, i, j, cid);
        assert false;
      }
    }
  }
}
