/**
 * The working parts of the drain: retrying a submission, sending a batch again after an error, and
 * sending all batches of a pass. Each is proved equal to a function of the relayer's answers, and
 * each accepted call is shown to have emptied at least one held token.
 */
module RedeemDrain {
  import opened Base
  import opened DataPager
  import opened Redeem
  import opened Submission

  /** The wallet's balances on chain, and the relayer that redeems. */
  type World = Remote<Balances, seq<RedeemCall>>

  // ----- one batch -----

  /** No call of the batch concerns this token. */
  ghost predicate Untouched(k: Tokens, calls: seq<RedeemCall>, t: nat) {
    forall i :: 0 <= i < |calls| ==> t != k.yesOf(calls[i].conditionId) && t != k.noOf(calls[i].conditionId)
  }

  lemma {:induction false} ExecLeavesUntouched(k: Tokens, bal: Balances, calls: seq<RedeemCall>, t: nat)
    requires Untouched(k, calls, t)
    ensures At(ExecCalls(k, bal, calls), t) == At(bal, t)
    decreases |calls|
  {
    if calls != [] {
      assert forall i :: 0 <= i < |calls[1..]| ==> calls[1..][i] == calls[i + 1];
      ExecLeavesUntouched(k, ExecCall(k, bal, calls[0]), calls[1..], t);
    }
  }

  /** What holds of the balances before and after any number of landings of a batch. */
  ghost predicate BatchState(k: Tokens, before: Balances, after: Balances, calls: seq<RedeemCall>) {
    && Drained(before, after) && after.Keys == before.Keys
    && (forall t: nat :: Untouched(k, calls, t) ==> At(after, t) == At(before, t))
    && (after == before || |Positive(after)| + |calls| <= |Positive(before)|)
  }

  /** The redeemed sides of every call are empty. */
  ghost predicate AllLanded(k: Tokens, bal: Balances, calls: seq<RedeemCall>) {
    forall i :: 0 <= i < |calls| ==>
      (Takes(k, calls[i], true) ==> At(bal, k.yesOf(calls[i].conditionId)) == 0)
      && (Takes(k, calls[i], false) ==> At(bal, k.noOf(calls[i].conditionId)) == 0)
  }

  lemma BatchLands(k: Tokens, before: Balances, now: Balances, calls: seq<RedeemCall>)
    requires DistinctTokens(k) && DistinctCalls(calls) && AllUseful(k, before, calls)
    requires BatchState(k, before, now, calls)
    ensures var after := ExecCalls(k, now, calls);
      && BatchState(k, before, after, calls)
      && |Positive(after)| + |calls| <= |Positive(before)|
      && AllLanded(k, after, calls)
  {
    var after := ExecCalls(k, now, calls);
    ExecCallsDrain(k, now, calls);
    if now == before {
      BatchDrains(k, before, calls);
    }
    forall t: nat | Untouched(k, calls, t) ensures At(after, t) == At(before, t) {
      ExecLeavesUntouched(k, now, calls, t);
    }
    forall i | 0 <= i < |calls|
      ensures Takes(k, calls[i], true) ==> At(after, k.yesOf(calls[i].conditionId)) == 0
      ensures Takes(k, calls[i], false) ==> At(after, k.noOf(calls[i].conditionId)) == 0
    {
      CallLands(k, now, calls, i);
    }
  }

  /** The request that settles a batch: accepted, or the failure of its last attempt. */
  function BatchEnd(answers: nat -> Answer, t: nat, busyRetries: int, retries: int): (end: nat)
    ensures t <= end
    decreases Max(retries, 0)
  {
    var end := LastTry(answers, t, busyRetries);
    if answers(end).Accepted? || retries <= 0 then end else BatchEnd(answers, end + 1, busyRetries, retries - 1)
  }

  /** Some attempt of the batch landed, reported or not. */
  function BatchLanded(answers: nat -> Answer, t: nat, busyRetries: int, retries: int): bool
    decreases Max(retries, 0)
  {
    var end := LastTry(answers, t, busyRetries);
    Landed(answers(end))
    || (!answers(end).Accepted? && retries > 0 && BatchLanded(answers, end + 1, busyRetries, retries - 1))
  }

  /** The request that settles the `n`-th try of a batch, each begun when the one before it has failed. */
  function TryEnd(answers: nat -> Answer, t: nat, busyRetries: int, n: nat): nat {
    if n == 0 then LastTry(answers, t, busyRetries)
    else LastTry(answers, TryEnd(answers, t, busyRetries, n - 1) + 1, busyRetries)
  }

  lemma {:induction false} TryLater(answers: nat -> Answer, t: nat, busyRetries: int, n: nat)
    ensures TryEnd(answers, t, busyRetries, n + 1)
         == TryEnd(answers, LastTry(answers, t, busyRetries) + 1, busyRetries, n)
  {
    if n > 0 {
      TryLater(answers, t, busyRetries, n - 1);
    }
  }

  /** How the `n`-th try is answered. */
  function TryAnswer(answers: nat -> Answer, t: nat, busyRetries: int, n: nat): Answer {
    answers(TryEnd(answers, t, busyRetries, n))
  }

  lemma AnswerLater(answers: nat -> Answer, t: nat, busyRetries: int, n: nat, next: nat)
    requires next == LastTry(answers, t, busyRetries) + 1
    ensures TryAnswer(answers, t, busyRetries, n + 1) == TryAnswer(answers, next, busyRetries, n)
  {
    TryLater(answers, t, busyRetries, n);
  }

  /** Some try up to the `n`-th landed. */
  ghost predicate LandedBy(answers: nat -> Answer, t: nat, busyRetries: int, n: nat) {
    exists m: nat :: m <= n && Landed(TryAnswer(answers, t, busyRetries, m))
  }

  /** No try before the `n`-th is accepted. */
  ghost predicate RefusedBefore(answers: nat -> Answer, t: nat, busyRetries: int, n: nat) {
    forall m: nat :: m < n ==> !TryAnswer(answers, t, busyRetries, m).Accepted?
  }

  lemma LandedByLater(answers: nat -> Answer, t: nat, busyRetries: int, n: nat, next: nat)
    requires next == LastTry(answers, t, busyRetries) + 1
    ensures LandedBy(answers, t, busyRetries, n + 1) <==>
      Landed(TryAnswer(answers, t, busyRetries, 0)) || LandedBy(answers, next, busyRetries, n)
  {
    if LandedBy(answers, t, busyRetries, n + 1) {
      var m: nat :| m <= n + 1 && Landed(TryAnswer(answers, t, busyRetries, m));
      if m > 0 {
        AnswerLater(answers, t, busyRetries, m - 1, next);
      }
    }
    if LandedBy(answers, next, busyRetries, n) {
      var m: nat :| m <= n && Landed(TryAnswer(answers, next, busyRetries, m));
      AnswerLater(answers, t, busyRetries, m, next);
      var later := m + 1;
      assert Landed(TryAnswer(answers, t, busyRetries, later));
    }
  }

  lemma RefusedLater(answers: nat -> Answer, t: nat, busyRetries: int, n: nat, next: nat)
    requires next == LastTry(answers, t, busyRetries) + 1 && RefusedBefore(answers, next, busyRetries, n)
    requires !TryAnswer(answers, t, busyRetries, 0).Accepted?
    ensures RefusedBefore(answers, t, busyRetries, n + 1)
  {
    forall m: nat | m < n + 1 ensures !TryAnswer(answers, t, busyRetries, m).Accepted? {
      if m > 0 {
        AnswerLater(answers, t, busyRetries, m - 1, next);
      }
    }
  }

  lemma LandedFirst(answers: nat -> Answer, t: nat, busyRetries: int)
    ensures LandedBy(answers, t, busyRetries, 0) <==> Landed(TryAnswer(answers, t, busyRetries, 0))
  {
  }

  /**
   * A batch is sent again while a try is not accepted, at most so many times, and given up only after
   * the last. It has landed exactly when some try of it has.
   */
  lemma {:induction false} BatchTries(answers: nat -> Answer, t: nat, busyRetries: int, retries: int)
    returns (n: nat)
    ensures n <= Max(retries, 0) && BatchEnd(answers, t, busyRetries, retries) == TryEnd(answers, t, busyRetries, n)
    ensures RefusedBefore(answers, t, busyRetries, n)
    ensures TryAnswer(answers, t, busyRetries, n).Accepted? || n == Max(retries, 0)
    ensures BatchLanded(answers, t, busyRetries, retries) <==> LandedBy(answers, t, busyRetries, n)
    decreases Max(retries, 0)
  {
    var next := LastTry(answers, t, busyRetries) + 1;
    assert TryEnd(answers, t, busyRetries, 0) == next - 1;
    if answers(next - 1).Accepted? || retries <= 0 {
      n := 0;
      LandedFirst(answers, t, busyRetries);
    } else {
      var k := BatchTries(answers, next, busyRetries, retries - 1);
      n := k + 1;
      TryLater(answers, t, busyRetries, k);
      LandedByLater(answers, t, busyRetries, k, next);
      RefusedLater(answers, t, busyRetries, k, next);
    }
  }

  lemma {:induction false} AcceptedLanded(answers: nat -> Answer, t: nat, busyRetries: int, retries: int)
    requires answers(BatchEnd(answers, t, busyRetries, retries)).Accepted?
    ensures BatchLanded(answers, t, busyRetries, retries)
    decreases Max(retries, 0)
  {
    var end := LastTry(answers, t, busyRetries);
    if !answers(end).Accepted? && retries > 0 {
      AcceptedLanded(answers, end + 1, busyRetries, retries - 1);
    }
  }

  /** Some call of the batch redeems this token. */
  predicate Redeems(k: Tokens, calls: seq<RedeemCall>, t: nat) {
    calls != []
    && ((Takes(k, calls[0], true) && t == k.yesOf(calls[0].conditionId))
        || (Takes(k, calls[0], false) && t == k.noOf(calls[0].conditionId))
        || Redeems(k, calls[1..], t))
  }

  lemma {:induction false} ExecCallsAt(k: Tokens, bal: Balances, calls: seq<RedeemCall>, t: nat)
    ensures At(ExecCalls(k, bal, calls), t) == if Redeems(k, calls, t) then 0 else At(bal, t)
    decreases |calls|
  {
    if calls != [] {
      ExecCallsAt(k, ExecCall(k, bal, calls[0]), calls[1..], t);
    }
  }

  lemma SameBalances(a: Balances, b: Balances)
    requires a.Keys == b.Keys && forall t: nat :: At(a, t) == At(b, t)
    ensures a == b
  {
    forall t: nat | t in a ensures t in b && a[t] == b[t] {
      assert At(a, t) == At(b, t);
    }
  }

  /** Redeeming a batch again after it landed unreported changes nothing. */
  lemma SecondLandingIsIdle(k: Tokens, bal: Balances, calls: seq<RedeemCall>)
    ensures ExecCalls(k, ExecCalls(k, bal, calls), calls) == ExecCalls(k, bal, calls)
  {
    var once := ExecCalls(k, bal, calls);
    ExecCallsDrain(k, bal, calls);
    ExecCallsDrain(k, once, calls);
    forall t: nat ensures At(ExecCalls(k, once, calls), t) == At(once, t) {
      ExecCallsAt(k, bal, calls, t);
      ExecCallsAt(k, once, calls, t);
    }
    SameBalances(ExecCalls(k, once, calls), once);
  }

  /**
   * Submits one batch whole, again after an error, up to `batchMaxRetries` times. However often it
   * lands, the balances change at most once.
   */
  method SubmitBatch(world: World, k: Tokens, calls: seq<RedeemCall>, opts: RedeemOptions) returns (ok: bool)
    modifies world
    ensures world.clock ==
      BatchEnd(world.answers, old(world.clock), opts.walletBusyMaxRetries, opts.batchMaxRetries) + 1
    ensures world.log == old(world.log) + Copies(calls, world.clock - old(world.clock))
    ensures ok <==> world.answers(world.clock - 1).Accepted?
    ensures world.state ==
      if BatchLanded(world.answers, old(world.clock), opts.walletBusyMaxRetries, opts.batchMaxRetries)
      then ExecCalls(k, old(world.state), calls) else old(world.state)
  {
    var attempt := 0;
    ghost var landed := false;
    SecondLandingIsIdle(k, world.state, calls);
    assert world.log + [] == world.log;
    while true
      invariant world.clock >= old(world.clock)
      invariant world.log == old(world.log) + Copies(calls, world.clock - old(world.clock))
      invariant attempt <= Max(opts.batchMaxRetries, 0)
      invariant BatchEnd(world.answers, old(world.clock), opts.walletBusyMaxRetries, opts.batchMaxRetries)
             == BatchEnd(world.answers, world.clock, opts.walletBusyMaxRetries, opts.batchMaxRetries - attempt)
      invariant BatchLanded(world.answers, old(world.clock), opts.walletBusyMaxRetries, opts.batchMaxRetries) <==>
        landed
        || BatchLanded(world.answers, world.clock, opts.walletBusyMaxRetries, opts.batchMaxRetries - attempt)
      invariant world.state == if landed then ExecCalls(k, old(world.state), calls) else old(world.state)
      decreases opts.batchMaxRetries - attempt
    {
      ghost var before := world.clock;
      var a := world.SubmitWithBusyRetry(calls, ExecCalls(k, world.state, calls), opts.walletBusyMaxRetries);
      LongerLog(old(world.log), calls, before - old(world.clock), world.clock - before);
      landed := landed || Landed(a);
      if a.Accepted? {
        return true;
      }
      if attempt < opts.batchMaxRetries {
        attempt := attempt + 1;
      } else {
        return false;
      }
    }
  }

  lemma LongerLog(log: seq<seq<RedeemCall>>, calls: seq<RedeemCall>, m: nat, n: nat)
    ensures (log + Copies(calls, m)) + Copies(calls, n) == log + Copies(calls, m + n)
  {
    CopiesJoin(calls, m, n);
    AppendAssoc(log, Copies(calls, m), Copies(calls, n));
  }

  // ----- all batches of a pass -----

  lemma UsefulElsewhere(k: Tokens, before: Balances, after: Balances, calls: seq<RedeemCall>, d: RedeemCall)
    requires DistinctTokens(k) && BatchState(k, before, after, calls) && Useful(k, before, d)
    requires forall i :: 0 <= i < |calls| ==> calls[i].conditionId != d.conditionId
    ensures Useful(k, after, d)
  {
    assert Untouched(k, calls, k.yesOf(d.conditionId));
    assert Untouched(k, calls, k.noOf(d.conditionId));
  }

  lemma LandedStays(k: Tokens, before: Balances, after: Balances, calls: seq<RedeemCall>)
    requires Drained(before, after) && AllLanded(k, before, calls)
    ensures AllLanded(k, after, calls)
  {
  }

  lemma LandedConcat(k: Tokens, bal: Balances, a: seq<RedeemCall>, b: seq<RedeemCall>)
    requires AllLanded(k, bal, a) && AllLanded(k, bal, b)
    ensures AllLanded(k, bal, a + b)
  {
  }

  /** The accepted calls are calls of the pass, each once, in order. */
  ghost predicate TakenFrom(taken: seq<RedeemCall>, calls: seq<RedeemCall>) {
    DistinctCalls(taken)
    && forall i :: 0 <= i < |taken| ==> taken[i] in calls
  }

  /** The outcome of submitting calls: when, on which balances, how many accepted and given up, and which. */
  datatype Sent = Sent(clock: nat, bal: Balances, ok: nat, bad: nat, taken: seq<RedeemCall>)

  function ChunkSize(opts: RedeemOptions, calls: seq<RedeemCall>): (n: nat)
    ensures n <= |calls| && (calls != [] ==> n > 0)
  {
    Min(Max(opts.batchSize, 1), |calls|)
  }

  /** One batch: the balances it leaves at the time it is settled. */
  function SendBatch(
      k: Tokens, answers: nat -> Answer, t: nat, bal: Balances, chunk: seq<RedeemCall>, opts: RedeemOptions)
    : Sent
  {
    var end := BatchEnd(answers, t, opts.walletBusyMaxRetries, opts.batchMaxRetries);
    var after :=
      if BatchLanded(answers, t, opts.walletBusyMaxRetries, opts.batchMaxRetries) then ExecCalls(k, bal, chunk)
      else bal;
    if answers(end).Accepted? then Sent(end + 1, after, |chunk|, 0, chunk)
    else Sent(end + 1, after, 0, |chunk|, [])
  }

  /** Batch after batch, each settled before the next. */
  function SendAll(
      k: Tokens, answers: nat -> Answer, t: nat, bal: Balances, calls: seq<RedeemCall>, opts: RedeemOptions)
    : Sent
    decreases |calls|
  {
    if calls == [] then Sent(t, bal, 0, 0, [])
    else
      var n := ChunkSize(opts, calls);
      var first := SendBatch(k, answers, t, bal, calls[..n], opts);
      Joined(first, SendAll(k, answers, first.clock, first.bal, calls[n..], opts))
  }

  function Joined(a: Sent, b: Sent): Sent {
    Sent(b.clock, b.bal, a.ok + b.ok, a.bad + b.bad, a.taken + b.taken)
  }

  lemma JoinedAssoc(a: Sent, b: Sent, c: Sent)
    ensures Joined(a, Joined(b, c)) == Joined(Joined(a, b), c)
  {
    AppendAssoc(a.taken, b.taken, c.taken);
  }

  lemma DrainedTrans(a: Balances, b: Balances, c: Balances)
    requires Drained(a, b) && Drained(b, c)
    ensures Drained(a, c)
  {
    forall t: nat ensures At(c, t) == At(a, t) || At(c, t) == 0 {
      assert At(b, t) == At(a, t) || At(b, t) == 0;
      assert At(c, t) == At(b, t) || At(c, t) == 0;
    }
  }

  lemma BatchSent(k: Tokens, answers: nat -> Answer, t: nat, bal: Balances, chunk: seq<RedeemCall>, opts: RedeemOptions)
    requires DistinctTokens(k) && DistinctCalls(chunk) && AllUseful(k, bal, chunk)
    ensures var sent := SendBatch(k, answers, t, bal, chunk, opts);
      && BatchState(k, bal, sent.bal, chunk)
      && sent.ok + sent.bad == |chunk| && sent.ok == |sent.taken|
      && (sent.taken == chunk || sent.taken == [])
      && AllLanded(k, sent.bal, sent.taken)
      && |Positive(sent.bal)| + sent.ok <= |Positive(bal)|
  {
    BatchLands(k, bal, bal, chunk);
    if answers(BatchEnd(answers, t, opts.walletBusyMaxRetries, opts.batchMaxRetries)).Accepted? {
      AcceptedLanded(answers, t, opts.walletBusyMaxRetries, opts.batchMaxRetries);
    }
  }

  /**
   * What submitting keeps: every call is counted once, the accepted ones are calls of the pass and
   * have landed, and each of them emptied a held token.
   */
  ghost predicate SentWell(k: Tokens, before: Balances, calls: seq<RedeemCall>, sent: Sent) {
    && sent.ok + sent.bad == |calls| && sent.ok == |sent.taken|
    && TakenFrom(sent.taken, calls) && AllLanded(k, sent.bal, sent.taken)
    && Drained(before, sent.bal) && sent.bal.Keys == before.Keys
    && |Positive(sent.bal)| + sent.ok <= |Positive(before)|
  }

  lemma {:induction false} AllSentWell(
      k: Tokens, answers: nat -> Answer, t: nat, bal: Balances, calls: seq<RedeemCall>, opts: RedeemOptions)
    requires DistinctTokens(k) && DistinctCalls(calls) && AllUseful(k, bal, calls)
    ensures SentWell(k, bal, calls, SendAll(k, answers, t, bal, calls, opts))
    decreases |calls|
  {
    if calls != [] {
      var n := ChunkSize(opts, calls);
      var chunk, rest := calls[..n], calls[n..];
      SplitUseful(k, bal, calls, n);
      BatchSent(k, answers, t, bal, chunk, opts);
      var first := SendBatch(k, answers, t, bal, chunk, opts);
      StillUseful(k, bal, first.bal, calls, n);
      AllSentWell(k, answers, first.clock, first.bal, rest, opts);
      var later := SendAll(k, answers, first.clock, first.bal, rest, opts);
      JoinSent(k, bal, calls, n, first, later);
    }
  }

  lemma SplitUseful(k: Tokens, bal: Balances, calls: seq<RedeemCall>, n: nat)
    requires n <= |calls| && DistinctCalls(calls) && AllUseful(k, bal, calls)
    ensures DistinctCalls(calls[..n]) && AllUseful(k, bal, calls[..n])
    ensures DistinctCalls(calls[n..]) && AllUseful(k, bal, calls[n..])
  {
  }

  lemma StillUseful(k: Tokens, before: Balances, after: Balances, calls: seq<RedeemCall>, n: nat)
    requires n <= |calls| && DistinctTokens(k) && DistinctCalls(calls) && AllUseful(k, before, calls)
    requires BatchState(k, before, after, calls[..n])
    ensures AllUseful(k, after, calls[n..])
  {
    forall i | 0 <= i < |calls[n..]| ensures Useful(k, after, calls[n..][i]) {
      assert calls[n..][i] == calls[n + i];
      UsefulElsewhere(k, before, after, calls[..n], calls[n + i]);
    }
  }

  lemma TakeBoth(calls: seq<RedeemCall>, n: nat, a: seq<RedeemCall>, b: seq<RedeemCall>)
    requires n <= |calls| && DistinctCalls(calls)
    requires (a == calls[..n] || a == []) && TakenFrom(b, calls[n..])
    ensures TakenFrom(a + b, calls)
  {
    forall i | 0 <= i < |b| ensures exists m :: n <= m < |calls| && calls[m] == b[i] {
      var m :| 0 <= m < |calls[n..]| && calls[n..][m] == b[i];
      assert calls[n + m] == b[i];
    }
  }

  lemma JoinSent(k: Tokens, before: Balances, calls: seq<RedeemCall>, n: nat, first: Sent, later: Sent)
    requires n <= |calls| && DistinctCalls(calls)
    requires first.ok + first.bad == n && first.ok == |first.taken|
    requires first.taken == calls[..n] || first.taken == []
    requires Drained(before, first.bal) && first.bal.Keys == before.Keys
    requires AllLanded(k, first.bal, first.taken) && |Positive(first.bal)| + first.ok <= |Positive(before)|
    requires SentWell(k, first.bal, calls[n..], later)
    ensures SentWell(k, before, calls, Joined(first, later))
  {
    TakeBoth(calls, n, first.taken, later.taken);
    LandedStays(k, first.bal, later.bal, first.taken);
    LandedConcat(k, later.bal, first.taken, later.taken);
    DrainedTrans(before, first.bal, later.bal);
  }

  /** What is left to send at the `start`-th call. */
  function SendFrom(
      k: Tokens, answers: nat -> Answer, t: nat, bal: Balances, calls: seq<RedeemCall>, start: nat, opts: RedeemOptions)
    : Sent
    requires start <= |calls|
  {
    SendAll(k, answers, t, bal, calls[start..], opts)
  }

  lemma SendEnds(
      k: Tokens, answers: nat -> Answer, t: nat, bal: Balances, calls: seq<RedeemCall>, opts: RedeemOptions, done: Sent)
    requires done.clock == t && done.bal == bal
    ensures SendFrom(k, answers, t, bal, calls, 0, opts) == SendAll(k, answers, t, bal, calls, opts)
    ensures Joined(done, SendFrom(k, answers, t, bal, calls, |calls|, opts)) == done
    ensures done.taken == [] && done.ok == 0 && done.bad == 0 ==>
      forall rest: Sent :: Joined(done, rest) == rest
  {
    assert calls[0..] == calls && calls[|calls|..] == [];
    assert done.taken + [] == done.taken;
    forall rest: Sent | done.taken == [] && done.ok == 0 && done.bad == 0 ensures Joined(done, rest) == rest {
      assert [] + rest.taken == rest.taken;
    }
  }

  /** The sending from one call on is the next batch, then the sending from there. */
  lemma NextBatch(
      k: Tokens, answers: nat -> Answer, t: nat, bal: Balances, calls: seq<RedeemCall>, start: nat, stop: nat,
      opts: RedeemOptions, done: Sent)
    requires start < |calls| && stop == Min(start + Max(opts.batchSize, 1), |calls|)
    ensures var batch := SendBatch(k, answers, t, bal, calls[start..stop], opts);
      Joined(done, SendFrom(k, answers, t, bal, calls, start, opts))
      == Joined(Joined(done, batch), SendFrom(k, answers, batch.clock, batch.bal, calls, stop, opts))
  {
    var left := calls[start..];
    assert left[..stop - start] == calls[start..stop] && left[stop - start..] == calls[stop..];
    var batch := SendBatch(k, answers, t, bal, calls[start..stop], opts);
    JoinedAssoc(done, batch, SendFrom(k, answers, batch.clock, batch.bal, calls, stop, opts));
  }

  /** One batch of the pass, submitted until it is settled. */
  type Submitted = Sending<seq<RedeemCall>>

  ghost predicate BatchSettled(answers: nat -> Answer, s: Submitted, opts: RedeemOptions) {
    s.done == BatchEnd(answers, s.begun, opts.walletBusyMaxRetries, opts.batchMaxRetries) + 1
  }

  ghost predicate AllSettled(answers: nat -> Answer, sent: seq<Submitted>, opts: RedeemOptions) {
    forall i :: 0 <= i < |sent| ==> BatchSettled(answers, sent[i], opts)
  }

  /** The calls in batches of `size`, the last one maybe smaller. */
  ghost predicate Batched(calls: seq<RedeemCall>, batches: seq<seq<RedeemCall>>, size: nat) {
    && Concat(batches) == calls
    && (forall i :: 0 <= i < |batches| ==> 0 < |batches[i]| <= size)
    && forall i :: 0 <= i < |batches| - 1 ==> |batches[i]| == size
  }

  /** The first `start` calls are sent, in full batches unless nothing is left. */
  ghost predicate BatchedUpTo(calls: seq<RedeemCall>, start: nat, batches: seq<seq<RedeemCall>>, size: nat) {
    && start <= |calls| && Batched(calls[..start], batches, size)
    && (start < |calls| ==> forall i :: 0 <= i < |batches| ==> |batches[i]| == size)
  }

  lemma NextIsBatched(calls: seq<RedeemCall>, start: nat, stop: nat, batches: seq<seq<RedeemCall>>, size: nat)
    requires BatchedUpTo(calls, start, batches, size) && start < |calls|
    requires size > 0 && stop == Min(start + size, |calls|)
    ensures BatchedUpTo(calls, stop, batches + [calls[start..stop]], size)
  {
    ConcatAppend(batches, calls[start..stop]);
    assert calls[..start] + calls[start..stop] == calls[..stop];
  }

  /** Sends one more batch and counts it. */
  method SendNext(world: World, k: Tokens, chunk: seq<RedeemCall>, opts: RedeemOptions, ghost done: Sent)
    returns (ok: nat, bad: nat, ghost all: Sent, ghost sending: Submitted)
    requires done.clock == world.clock && done.bal == world.state
    modifies world
    ensures all == Joined(done,
      SendBatch(k, world.answers, old(world.clock), old(world.state), chunk, opts))
    ensures all.clock == world.clock && all.bal == world.state
    ensures all.ok == done.ok + ok && all.bad == done.bad + bad
    ensures sending == Sending(chunk, old(world.clock), world.clock) && BatchSettled(world.answers, sending, opts)
    ensures world.clock > old(world.clock)
    ensures world.log == old(world.log) + Copies(chunk, world.clock - old(world.clock))
  {
    ghost var batch := SendBatch(k, world.answers, world.clock, world.state, chunk, opts);
    ghost var begun := world.clock;
    all := Joined(done, batch);
    var accepted := SubmitBatch(world, k, chunk, opts);
    ok, bad := if accepted then |chunk| else 0, if accepted then 0 else |chunk|;
    sending := Sending(chunk, begun, world.clock);
  }

  /** What is logged of a pass: its calls, in batches of the size asked for, one batch settled after the other. */
  ghost predicate PassLogged(
    world: World, before: seq<seq<RedeemCall>>, t: nat, calls: seq<RedeemCall>, start: nat, opts: RedeemOptions,
    sendings: seq<Submitted>)
    reads world
  {
    && Logged(before, world.log, sendings, t, world.clock)
    && BatchedUpTo(calls, start, BatchesOf(sendings), Max(opts.batchSize, 1))
    && AllSettled(world.answers, sendings, opts)
  }

  lemma PassLogStarts(world: World, calls: seq<RedeemCall>, opts: RedeemOptions)
    ensures PassLogged(world, world.log, world.clock, calls, 0, opts, [])
  {
    NothingLogged(world.log, world.clock);
    assert calls[..0] == [];
  }

  lemma PassLogGrows(
      world: World, before: seq<seq<RedeemCall>>, t: nat, calls: seq<RedeemCall>, start: nat, stop: nat,
      opts: RedeemOptions, sendings: seq<Submitted>, next: Submitted, mid: seq<seq<RedeemCall>>)
    requires Logged(before, mid, sendings, t, next.begun) && AllSettled(world.answers, sendings, opts)
    requires BatchedUpTo(calls, start, BatchesOf(sendings), Max(opts.batchSize, 1))
    requires start < |calls| && stop == Min(start + Max(opts.batchSize, 1), |calls|)
    requires next == Sending(calls[start..stop], next.begun, world.clock) && next.begun < world.clock
    requires BatchSettled(world.answers, next, opts)
    requires world.log == mid + Copies(next.batch, world.clock - next.begun)
    ensures PassLogged(world, before, t, calls, stop, opts, sendings + [next])
  {
    LogsOneMore(before, mid, sendings, t, next);
    OneMoreSent(sendings, next, t);
    NextIsBatched(calls, start, stop, BatchesOf(sendings), Max(opts.batchSize, 1));
  }

  /** Sends the batch from `start` to `stop`, counts it and logs it. */
  method SendLogged(
      world: World, k: Tokens, calls: seq<RedeemCall>, start: nat, stop: nat, opts: RedeemOptions, ghost done: Sent,
      ghost before: seq<seq<RedeemCall>>, ghost t: nat, ghost past: seq<Submitted>)
    returns (ok: nat, bad: nat, ghost all: Sent, ghost sendings: seq<Submitted>)
    requires start < |calls| && stop == Min(start + Max(opts.batchSize, 1), |calls|)
    requires done.clock == world.clock && done.bal == world.state
    requires PassLogged(world, before, t, calls, start, opts, past)
    modifies world
    ensures all == Joined(done,
      SendBatch(k, world.answers, old(world.clock), old(world.state), calls[start..stop], opts))
    ensures all.clock == world.clock && all.bal == world.state
    ensures all.ok == done.ok + ok && all.bad == done.bad + bad
    ensures PassLogged(world, before, t, calls, stop, opts, sendings)
  {
    ghost var mid := world.log;
    ghost var sending;
    ok, bad, all, sending := SendNext(world, k, calls[start..stop], opts, done);
    PassLogGrows(world, before, t, calls, start, stop, opts, past, sending, mid);
    sendings := past + [sending];
  }

  /** Sends the calls in serial batches; an accepted batch counts redeemed, a given-up one failed. */
  method SubmitBatches(world: World, k: Tokens, calls: seq<RedeemCall>, opts: RedeemOptions)
    returns (ok: nat, bad: nat, ghost sent: Sent, ghost sendings: seq<Submitted>)
    modifies world
    ensures sent == SendAll(k, world.answers, old(world.clock), old(world.state), calls, opts)
    ensures sent.clock == world.clock && sent.bal == world.state && sent.ok == ok && sent.bad == bad
    ensures PassLogged(world, old(world.log), old(world.clock), calls, |calls|, opts, sendings)
  {
    ok, bad, sent, sendings := 0, 0, Sent(world.clock, world.state, 0, 0, []), [];
    var batchSize := Max(opts.batchSize, 1);
    var start := 0;
    SendEnds(k, world.answers, world.clock, world.state, calls, opts, sent);
    PassLogStarts(world, calls, opts);
    while start < |calls|
      invariant 0 <= start <= |calls|
      invariant sent.clock == world.clock && sent.bal == world.state && sent.ok == ok && sent.bad == bad
      invariant SendAll(k, world.answers, old(world.clock), old(world.state), calls, opts)
             == Joined(sent, SendFrom(k, world.answers, world.clock, world.state, calls, start, opts))
      invariant PassLogged(world, old(world.log), old(world.clock), calls, start, opts, sendings)
    {
      var stop := Min(start + batchSize, |calls|);
      NextBatch(k, world.answers, world.clock, world.state, calls, start, stop, opts, sent);
      var more, failed;
      more, failed, sent, sendings :=
        SendLogged(world, k, calls, start, stop, opts, sent, old(world.log), old(world.clock), sendings);
      ok, bad := ok + more, bad + failed;
      start := stop;
    }
    SendEnds(k, world.answers, world.clock, world.state, calls, opts, sent);
  }

  // ----- planning a pass -----

  lemma {:induction false} RedemptionsFromGroups(groups: seq<RedeemGroup>, bal: Balances, minRaw: int, i: nat)
    returns (g: nat)
    requires i < |Redemptions(groups, bal, minRaw)|
    ensures g < |groups| && Redemptions(groups, bal, minRaw)[i] == RedemptionOf(bal, groups[g])
    ensures Worthwhile(RedemptionOf(bal, groups[g]), minRaw)
  {
    var front := groups[..|groups| - 1];
    if i < |Redemptions(front, bal, minRaw)| {
      g := RedemptionsFromGroups(front, bal, minRaw, i);
    } else {
      g := |groups| - 1;
    }
  }

  ghost predicate DistinctConditions(rs: seq<Redemption>) {
    forall i, j :: 0 <= i < j < |rs| ==> rs[i].conditionId != rs[j].conditionId
  }

  lemma DistinctAppend(rs: seq<Redemption>, r: Redemption)
    requires DistinctConditions(rs) && forall i :: 0 <= i < |rs| ==> rs[i].conditionId != r.conditionId
    ensures DistinctConditions(rs + [r])
  {
  }

  lemma {:induction false} DistinctRedemptions(groups: seq<RedeemGroup>, bal: Balances, minRaw: int)
    requires DistinctGroups(groups)
    ensures DistinctConditions(Redemptions(groups, bal, minRaw))
  {
    if groups != [] {
      var front, last := groups[..|groups| - 1], groups[|groups| - 1];
      DistinctRedemptions(front, bal, minRaw);
      var rest, r := Redemptions(front, bal, minRaw), RedemptionOf(bal, last);
      forall i: nat | i < |rest| ensures rest[i].conditionId != r.conditionId {
        var g := RedemptionsFromGroups(front, bal, minRaw, i);
        assert groups[g] == front[g];
      }
      DistinctAppend(rest, r);
      assert Redemptions(groups, bal, minRaw) == rest + IfWorthwhile(r, minRaw);
      assert rest + [] == rest;
    }
  }

  /** A redemption's call goes where its condition is redeemed, and redeems each held reported side. */
  lemma CallIsUseful(k: Tokens, bal: Balances, groups: seq<RedeemGroup>, g: nat, minRaw: int)
    requires g < |groups| && TruthfulGroups(k, groups) && Worthwhile(RedemptionOf(bal, groups[g]), minRaw)
    ensures Useful(k, bal, CallOf(RedemptionOf(bal, groups[g])))
    ensures var c := CallOf(RedemptionOf(bal, groups[g]));
      && (RedemptionOf(bal, groups[g]).yesAmount > 0 ==> Takes(k, c, true))
      && (RedemptionOf(bal, groups[g]).noAmount > 0 ==> Takes(k, c, false))
  {
    SidesOfCall(RedemptionOf(bal, groups[g]));
  }

  lemma SidesOfCall(r: Redemption)
    ensures 1 in CallOf(r).indexSets <==> r.yesAmount > 0 || !r.negRisk
    ensures 2 in CallOf(r).indexSets <==> r.noAmount > 0 || !r.negRisk
  {
    var c := CallOf(r);
    if !r.negRisk {
      assert c.indexSets[0] == 1 && c.indexSets[1] == 2;
    } else if r.yesAmount > 0 {
      assert c.indexSets[0] == 1;
    }
    if r.negRisk && r.noAmount > 0 {
      assert c.indexSets[|c.indexSets| - 1] == 2;
    }
  }

  /** Planned calls concern distinct conditions and each redeems something held. */
  lemma PlannedCallsAreUseful(k: Tokens, bal: Balances, groups: seq<RedeemGroup>, minRaw: int)
    requires DistinctGroups(groups) && TruthfulGroups(k, groups)
    ensures var calls := CallsOf(Redemptions(groups, bal, minRaw));
      DistinctCalls(calls) && AllUseful(k, bal, calls)
  {
    var rs := Redemptions(groups, bal, minRaw);
    DistinctRedemptions(groups, bal, minRaw);
    assert forall r :: CallOf(r).conditionId == r.conditionId;
    forall i | 0 <= i < |rs| ensures Useful(k, bal, CallsOf(rs)[i]) {
      var g := RedemptionsFromGroups(groups, bal, minRaw, i);
      CallIsUseful(k, bal, groups, g, minRaw);
    }
  }

  /** Reads every listed token; the result holds exactly those tokens. */
  method ReadBalances(bal: Balances, ids: seq<nat>) returns (out: Balances)
    ensures forall t: nat :: t in out <==> t in ids
    ensures forall t: nat :: t in out ==> out[t] == At(bal, t)
  {
    out := map[];
    for n := 0 to |ids|
      invariant forall t: nat :: t in out <==> t in ids[..n]
      invariant forall t: nat :: t in out ==> out[t] == At(bal, t)
    {
      assert ids[..n + 1] == ids[..n] + [ids[n]];
      out := out[ids[n] := At(bal, ids[n])];
    }
    assert ids[..|ids|] == ids;
  }

  function GroupTokens(g: RedeemGroup): seq<nat> {
    (if g.yesToken.Some? then [g.yesToken.value] else []) + (if g.noToken.Some? then [g.noToken.value] else [])
  }

  function AllTokens(groups: seq<RedeemGroup>): seq<nat> {
    if groups == [] then [] else AllTokens(groups[..|groups| - 1]) + GroupTokens(groups[|groups| - 1])
  }

  ghost predicate AgreesOn(read: Balances, bal: Balances, ids: seq<nat>) {
    forall t: nat :: t in ids ==> At(read, t) == At(bal, t)
  }

  lemma AgreesSplit(read: Balances, bal: Balances, a: seq<nat>, b: seq<nat>)
    requires AgreesOn(read, bal, a + b)
    ensures AgreesOn(read, bal, a) && AgreesOn(read, bal, b)
  {
    forall t: nat | t in a ensures At(read, t) == At(bal, t) {
      assert t in a + b;
    }
    forall t: nat | t in b ensures At(read, t) == At(bal, t) {
      assert t in a + b;
    }
  }

  lemma SameRedemption(g: RedeemGroup, read: Balances, bal: Balances)
    requires AgreesOn(read, bal, GroupTokens(g))
    ensures RedemptionOf(read, g) == RedemptionOf(bal, g)
  {
    var ids := GroupTokens(g);
    if g.yesToken.Some? {
      assert ids[0] == g.yesToken.value && ids[0] in ids;
    }
    if g.noToken.Some? {
      assert ids[|ids| - 1] == g.noToken.value && ids[|ids| - 1] in ids;
    }
  }

  lemma RedemptionsStep(groups: seq<RedeemGroup>, bal: Balances, minRaw: int)
    requires groups != []
    ensures Redemptions(groups, bal, minRaw) == Redemptions(groups[..|groups| - 1], bal, minRaw)
                                              + IfWorthwhile(RedemptionOf(bal, groups[|groups| - 1]), minRaw)
  {
  }

  /** Redemptions built from the tokens read are those of the chain. */
  lemma {:induction false} SameRedemptions(groups: seq<RedeemGroup>, read: Balances, bal: Balances, minRaw: int)
    requires AgreesOn(read, bal, AllTokens(groups))
    ensures Redemptions(groups, read, minRaw) == Redemptions(groups, bal, minRaw)
    decreases |groups|
  {
    if groups == [] {
      assert Redemptions(groups, read, minRaw) == [];
      assert Redemptions(groups, bal, minRaw) == [];
    } else {
      var g, front := groups[|groups| - 1], groups[..|groups| - 1];
      AgreesSplit(read, bal, AllTokens(front), GroupTokens(g));
      SameRedemptions(front, read, bal, minRaw);
      SameRedemption(g, read, bal);
      RedemptionsStep(groups, read, minRaw);
      RedemptionsStep(groups, bal, minRaw);
      assert IfWorthwhile(RedemptionOf(read, g), minRaw) == IfWorthwhile(RedemptionOf(bal, g), minRaw);
    }
  }

  method ReadAndPlan(bal: Balances, positions: seq<Position>, minRaw: int) returns (rs: seq<Redemption>)
    ensures rs == Redemptions(Groups(positions), bal, minRaw)
  {
    var groups := GroupRedeemable(positions);
    var read := ReadBalances(bal, AllTokens(groups));
    SameRedemptions(groups, read, bal, minRaw);
    rs := BuildRedemptions(groups, read, minRaw);
  }

  // ----- the drain -----

  ghost predicate Truthful(k: Tokens, rows: seq<Position>) {
    forall i :: 0 <= i < |rows| ==> TruthfulRow(k, rows[i])
  }

  lemma {:induction false} PrefixTruthful(k: Tokens, rows: seq<Position>, n: nat)
    requires Truthful(k, rows) && n <= |rows|
    ensures Truthful(k, FirstRows(rows[..n]))
  {
    if n > 0 {
      PrefixTruthful(k, rows, n - 1);
      assert rows[..n][..n - 1] == rows[..n - 1] && rows[..n][n - 1] == rows[n - 1];
      assert TruthfulRow(k, rows[n - 1]);
    }
  }

  ghost predicate DistinctIds(ids: seq<Bytes32>) {
    forall i, j :: 0 <= i < j < |ids| ==> ids[i] != ids[j]
  }

  function Ids(calls: seq<RedeemCall>): (ids: seq<Bytes32>)
    ensures |ids| == |calls| && forall i :: 0 <= i < |calls| ==> ids[i] == calls[i].conditionId
  {
    if calls == [] then [] else [calls[0].conditionId] + Ids(calls[1..])
  }
}
