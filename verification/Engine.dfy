/**
 * The merge/convert cycle against a chain and a relayer that may answer anything: read balances,
 * plan, chunk, submit, and on failure read and plan again. Whatever happens, every submitted
 * batch is executable. If every holding past the leg cap has a known YES token id, the chain is always
 * somewhere along the original plan, and a successful return means all of that plan has been freed.
 */
module Engine {
  import opened Base
  import opened Ledger
  import opened Planner
  import opened PlanSteps
  import opened Resume
  import opened Optimality
  import opened Wallet
  import opened GasChunks
  import opened Layout
  import opened Submission
  import opened HiddenYes
  import opened HiddenResume
  import opened WalletBound
  import opened Weights
  import opened Packing

  datatype Outcome = NoOp | Settled(proceeds: int, chunks: nat) | QuotaRaised | Raised

  datatype Delays = Delays(
    singleLegMinQtyRaw: int, maxCallsPerSubmission: int, maxGasPerSubmission: int, walletBusyMaxRetries: int)

  const REBUILD_ATTEMPTS: nat := 2

  // ----- balances by token id -----

  function JobsOf(w: seq<Event>): (jobs: seq<seq<ConvertLeg>>)
    ensures |jobs| == |w| && forall i :: 0 <= i < |w| ==> jobs[i] == LegsOf(w[i].rows)
  {
    if w == [] then [] else [LegsOf(w[0].rows)] + JobsOf(w[1..])
  }

  function HeldOf(w: seq<Event>): (held: seq<Pairs>)
    ensures |held| == |w| && forall i :: 0 <= i < |w| ==> held[i] == PairsOf(w[i].rows)
  {
    if w == [] then [] else [PairsOf(w[0].rows)] + HeldOf(w[1..])
  }

  function AllRows(w: seq<Event>): seq<Row> {
    if w == [] then [] else w[0].rows + AllRows(w[1..])
  }

  predicate Mentions(rows: seq<Row>, id: int) {
    rows != [] && (HasToken(rows[0].leg, id) || Mentions(rows[1..], id))
  }

  /** No token id is used twice. */
  predicate DistinctTokens(rows: seq<Row>) {
    rows == []
    || (rows[0].leg.yesTokenId != Some(rows[0].leg.noTokenId)
        && !Mentions(rows[1..], rows[0].leg.noTokenId)
        && (rows[0].leg.yesTokenId.Some? ==> !Mentions(rows[1..], rows[0].leg.yesTokenId.value))
        && DistinctTokens(rows[1..]))
  }

  function BalanceOf(rows: seq<Row>, id: int): nat {
    if rows == [] then 0
    else if rows[0].leg.noTokenId == id then rows[0].no
    else if rows[0].leg.yesTokenId == Some(id) then rows[0].yes
    else BalanceOf(rows[1..], id)
  }

  function BalanceOfBatch(rows: seq<Row>, ids: seq<int>): (out: seq<nat>)
    ensures |out| == |ids|
  {
    if ids == [] then [] else [BalanceOf(rows, ids[0])] + BalanceOfBatch(rows, ids[1..])
  }

  lemma {:induction false} BatchConcat(rows: seq<Row>, a: seq<int>, b: seq<int>)
    ensures BalanceOfBatch(rows, a + b) == BalanceOfBatch(rows, a) + BalanceOfBatch(rows, b)
  {
    if a == [] {
      assert a + b == b;
    } else {
      assert (a + b)[1..] == a[1..] + b;
      BatchConcat(rows, a[1..], b);
    }
  }

  lemma {:induction false} MentionsAt(rows: seq<Row>, i: nat, id: int)
    requires i < |rows| && HasToken(rows[i].leg, id)
    ensures Mentions(rows, id)
  {
    if i > 0 {
      MentionsAt(rows[1..], i - 1, id);
    }
  }

  lemma {:induction false} BalanceAt(rows: seq<Row>, i: nat)
    requires DistinctTokens(rows) && i < |rows|
    ensures BalanceOf(rows, rows[i].leg.noTokenId) == rows[i].no
    ensures rows[i].leg.yesTokenId.Some? ==> BalanceOf(rows, rows[i].leg.yesTokenId.value) == rows[i].yes
  {
    if i > 0 {
      var leg := rows[i].leg;
      assert rows[1..][i - 1] == rows[i];
      MentionsAt(rows[1..], i - 1, leg.noTokenId);
      if leg.yesTokenId.Some? {
        MentionsAt(rows[1..], i - 1, leg.yesTokenId.value);
      }
      BalanceAt(rows[1..], i - 1);
    }
  }

  lemma BatchOfLeg(rows: seq<Row>, i: nat)
    requires DistinctTokens(rows) && i < |rows|
    ensures BalanceOfBatch(rows, LegTokens(rows[i].leg)) == PackLeg(rows[i].leg, (rows[i].no, rows[i].yes))
  {
    BalanceAt(rows, i);
    var leg := rows[i].leg;
    if leg.yesTokenId.Some? {
      var ids := LegTokens(leg);
      assert ids == [leg.noTokenId, leg.yesTokenId.value];
      assert ids[1..] == [leg.yesTokenId.value] && ids[1..][1..] == [];
      assert BalanceOfBatch(rows, ids[1..]) == [rows[i].yes];
    } else {
      assert LegTokens(leg) == [leg.noTokenId];
      assert LegTokens(leg)[1..] == [];
    }
  }

  lemma {:induction false} BatchOfRows(rows: seq<Row>, from: nat, part: seq<Row>)
    requires DistinctTokens(rows) && from + |part| <= |rows| && part == rows[from..from + |part|]
    ensures BalanceOfBatch(rows, TokenIds(LegsOf(part))) == Pack(LegsOf(part), PairsOf(part))
    decreases |part|
  {
    if part != [] {
      assert part[1..] == rows[from + 1..from + 1 + |part[1..]|] && part[0] == rows[from];
      BatchOfRows(rows, from + 1, part[1..]);
      BatchOfLeg(rows, from);
      BatchConcat(rows, LegTokens(part[0].leg), TokenIds(LegsOf(part[1..])));
      assert LegsOf(part)[1..] == LegsOf(part[1..]) && PairsOf(part)[1..] == PairsOf(part[1..]);
    }
  }

  /** The batch read of every job's tokens is the packed balances of the wallet. */
  lemma {:induction false} BatchOfWallet(rows: seq<Row>, from: nat, w: seq<Event>)
    requires DistinctTokens(rows) && from <= |rows| && rows[from..] == AllRows(w)
    ensures BalanceOfBatch(rows, AllTokenIds(JobsOf(w))) == PackAll(JobsOf(w), HeldOf(w))
    decreases |w|
  {
    if w != [] {
      var part, next := w[0].rows, from + |w[0].rows|;
      assert rows[from..] == part + AllRows(w[1..]);
      assert part == rows[from..][..|part|] == rows[from..next];
      assert rows[next..] == rows[from..][|part|..] == AllRows(w[1..]);
      BatchOfRows(rows, from, part);
      BatchOfWallet(rows, next, w[1..]);
      BatchConcat(rows, TokenIds(LegsOf(part)), AllTokenIds(JobsOf(w[1..])));
      assert JobsOf(w)[1..] == JobsOf(w[1..]) && HeldOf(w)[1..] == HeldOf(w[1..]);
    }
  }

  // ----- the chain and the relayer -----

  /** The wallet's balances on chain, one event per job. */
  type Relay = Remote<seq<Event>, Batch>

  /** One balance query for all tokens; fails when the endpoint does. */
  method ReadBatch(relay: Relay, ids: seq<int>) returns (r: Option<seq<nat>>)
    modifies relay`clock
    ensures relay.clock == old(relay.clock) + 1
    ensures r == if relay.readable(old(relay.clock)) then Some(BalanceOfBatch(AllRows(relay.state), ids)) else None
  {
    var ok := relay.Read();
    r := if ok then Some(BalanceOfBatch(AllRows(relay.state), ids)) else None;
  }

  /**
   * Reads every job's balances in one query; with no tokens to ask for there is no query. A YES
   * balance whose token id is unknown reads as 0, and only that.
   */
  method ReadBalancesMulti(relay: Relay, jobs: seq<seq<ConvertLeg>>) returns (r: Option<seq<Pairs>>)
    requires jobs == JobsOf(relay.state) && DistinctTokens(AllRows(relay.state))
    modifies relay`clock
    ensures old(relay.clock) <= relay.clock <= old(relay.clock) + 1
    ensures r.Some? ==> r.value == HeldOf(ShownWallet(relay.state))
    ensures r.None? ==> relay.clock == old(relay.clock) + 1 && !relay.readable(old(relay.clock))
  {
    var ids := AllIds(jobs);
    ghost var w := relay.state;
    QueryReads(w);
    var balances := [];
    if ids != [] {
      var reply := ReadBatch(relay, ids);
      if reply.None? {
        return None;
      }
      balances := reply.value;
    }
    assert balances == PackAll(jobs, HeldOf(w));
    var unpacked := UnpackMulti(jobs, balances);
    ReadBack(jobs, HeldOf(w), unpacked.value);
    SeenIsShown(w, unpacked.value);
    return Some(unpacked.value);
  }

  /** Every job's token ids, job after job. */
  method AllIds(jobs: seq<seq<ConvertLeg>>) returns (ids: seq<int>)
    ensures ids == AllTokenIds(jobs)
  {
    ids := [];
    for j := 0 to |jobs|
      invariant ids + AllTokenIds(jobs[j..]) == AllTokenIds(jobs)
    {
      var jobIds := BatchTokenIds(jobs[j]);
      assert jobs[j..][0] == jobs[j] && jobs[j..][1..] == jobs[j + 1..];
      AppendAssoc(ids, jobIds, AllTokenIds(jobs[j + 1..]));
      ids := ids + jobIds;
    }
    assert ids + [] == ids;
  }

  lemma QueryReads(w: seq<Event>)
    requires DistinctTokens(AllRows(w))
    ensures BalanceOfBatch(AllRows(w), AllTokenIds(JobsOf(w))) == PackAll(JobsOf(w), HeldOf(w))
    ensures |PackAll(JobsOf(w), HeldOf(w))| == TotalCount(JobsOf(w))
    ensures AllTokenIds(JobsOf(w)) == [] ==> PackAll(JobsOf(w), HeldOf(w)) == []
  {
    assert AllRows(w)[0..] == AllRows(w);
    BatchOfWallet(AllRows(w), 0, w);
    PackAllLength(JobsOf(w), HeldOf(w));
  }

  lemma {:induction false} SeenIsShown(w: seq<Event>, read: seq<Pairs>)
    requires |read| == |w|
    requires forall j :: 0 <= j < |w| ==> SeenAll(LegsOf(w[j].rows), PairsOf(w[j].rows), read[j])
    ensures read == HeldOf(ShownWallet(w))
    decreases |w|
  {
    if w != [] {
      ShownPairs(w[0].rows, read[0]);
      assert forall j :: 0 <= j < |w[1..]| ==> w[1..][j] == w[j + 1] && read[1..][j] == read[j + 1];
      SeenIsShown(w[1..], read[1..]);
      var s := ShownWallet(w);
      assert s[0] == ShownEvent(w[0]) && s[1..] == ShownWallet(w[1..]);
      assert HeldOf(s) == [PairsOf(s[0].rows)] + HeldOf(s[1..]);
      assert read == [read[0]] + read[1..];
    }
  }

  lemma ShownPairs(rows: seq<Row>, read: Pairs)
    requires SeenAll(LegsOf(rows), PairsOf(rows), read)
    ensures read == PairsOf(ShownRows(rows))
  {
    forall i | 0 <= i < |rows| ensures read[i] == PairsOf(ShownRows(rows))[i] {
      assert read[i] == Seen(rows[i].leg, (rows[i].no, rows[i].yes));
    }
  }

  lemma ShownJobs(w: seq<Event>)
    ensures JobsOf(ShownWallet(w)) == JobsOf(w)
  {
    ShownWalletAt(w);
    forall j | 0 <= j < |w| ensures JobsOf(ShownWallet(w))[j] == JobsOf(w)[j] {
      assert LegsOf(ShownRows(w[j].rows)) == LegsOf(w[j].rows);
    }
  }

  // ----- planning -----

  lemma ZipRows(rows: seq<Row>)
    ensures Zip(LegsOf(rows), PairsOf(rows)) == rows
  {
  }

  ghost predicate PlansOf(plans: seq<EventPlan>, w: seq<Event>, floor: int) {
    |plans| == |w| && forall i :: 0 <= i < |w| ==> plans[i] == Plan(w[i], floor, MAX_LEGS_PER_CONVERT)
  }

  lemma PlansTail(plans: seq<EventPlan>, w: seq<Event>, floor: int)
    requires PlansOf(plans, w, floor) && w != []
    ensures plans[0] == Plan(w[0], floor, MAX_LEGS_PER_CONVERT) && PlansOf(plans[1..], w[1..], floor)
  {
  }

  lemma NoPlanHasEmptyTier(w: seq<Event>, plans: seq<EventPlan>, floor: int)
    requires PlansOf(plans, w, floor)
    ensures NoEmptyTiers(plans)
  {
    forall i | 0 <= i < |plans| ensures NoEmptyTier(plans[i].tiers) {
      PlanNeverEmptyTier(Holdings(w[i].rows), floor, MAX_LEGS_PER_CONVERT);
    }
  }

  lemma CallsOfEvent(e: Event, plan: EventPlan, floor: int)
    requires plan == Plan(e, floor, MAX_LEGS_PER_CONVERT)
    ensures NoEmptyTier(plan.tiers) && CallsOfPlan(plan) == Calls(e, floor, MAX_LEGS_PER_CONVERT)
  {
    PlanNeverEmptyTier(Holdings(e.rows), floor, MAX_LEGS_PER_CONVERT);
  }

  /** No plan has an empty tier, so flattening the plans of a wallet gives the wallet's call list. */
  lemma {:induction false} CallsOfAllPlans(w: seq<Event>, plans: seq<EventPlan>, floor: int)
    requires PlansOf(plans, w, floor)
    ensures NoEmptyTiers(plans)
    ensures CallsOfPlans(plans) == WalletCalls(w, floor, MAX_LEGS_PER_CONVERT)
  {
    NoPlanHasEmptyTier(w, plans, floor);
    if w != [] {
      PlansTail(plans, w, floor);
      CallsOfEvent(w[0], plans[0], floor);
      CallsOfAllPlans(w[1..], plans[1..], floor);
    }
  }

  lemma PlansOfStep(plans: seq<EventPlan>, plan: EventPlan, w: seq<Event>, i: nat, floor: int)
    requires i < |w| && PlansOf(plans, w[..i], floor) && plan == Plan(w[i], floor, MAX_LEGS_PER_CONVERT)
    ensures PlansOf(plans + [plan], w[..i + 1], floor)
  {
    assert w[..i + 1] == w[..i] + [w[i]];
  }

  /** Plans every job from its balances. */
  method PlanAll(jobs: seq<seq<ConvertLeg>>, balances: seq<Pairs>, floor: int, ghost w: seq<Event>)
    returns (plans: seq<EventPlan>)
    requires jobs == JobsOf(w) && balances == HeldOf(w)
    ensures PlansOf(plans, w, floor)
  {
    plans := [];
    for i := 0 to |jobs|
      invariant PlansOf(plans, w[..i], floor)
    {
      var plan := PlanEventFromBalances(jobs[i], balances[i], floor);
      ZipRows(w[i].rows);
      PlansOfStep(plans, plan, w, i, floor);
      plans := plans + [plan];
    }
    assert w[..|w|] == w;
  }

  /** Each job's plan is the plan of what the read shows; planning submits nothing. */
  method PlanJobs(relay: Relay, jobs: seq<seq<ConvertLeg>>, floor: int) returns (r: Option<seq<EventPlan>>)
    requires jobs == JobsOf(relay.state) && DistinctTokens(AllRows(relay.state))
    modifies relay`clock
    ensures old(relay.clock) <= relay.clock <= old(relay.clock) + 1
    ensures r.Some? ==> PlansOf(r.value, ShownWallet(relay.state), floor)
    ensures r.None? ==> relay.clock == old(relay.clock) + 1 && !relay.readable(old(relay.clock))
  {
    var balances := ReadBalancesMulti(relay, jobs);
    if balances.None? {
      return None;
    }
    ShownJobs(relay.state);
    var plans := PlanAll(jobs, balances.value, floor, ShownWallet(relay.state));
    return Some(plans);
  }

  function TotalProceeds(plans: seq<EventPlan>): int {
    if plans == [] then 0 else plans[0].proceeds + TotalProceeds(plans[1..])
  }

  lemma {:induction false} TotalIsSum(plans: seq<EventPlan>, w: seq<Event>, floor: int)
    requires PlansOf(plans, w, floor)
    ensures TotalProceeds(plans) == SumProceeds(w, floor, MAX_LEGS_PER_CONVERT)
  {
    if w != [] {
      PlansTail(plans, w, floor);
      TotalIsSum(plans[1..], w[1..], floor);
    }
  }

  // ----- the cycle -----

  ghost predicate SameLegs(w: seq<Event>, w': seq<Event>) {
    JobsOf(w') == JobsOf(w) && DistinctTokens(AllRows(w')) == DistinctTokens(AllRows(w))
  }

  lemma {:induction false} LegsKept(w: seq<Event>, call: Call)
    ensures JobsOf(ExecW(w, call)) == JobsOf(w)
    ensures LegsOf(AllRows(ExecW(w, call))) == LegsOf(AllRows(w))
  {
    if w != [] {
      LegsKept(w[1..], call);
      ExecInKeeps(w[0], call);
      var w' := ExecW(w, call);
      assert LegsOf(w'[0].rows) == LegsOf(w[0].rows);
      LegsConcat(w[0].rows, AllRows(w[1..]));
      LegsConcat(w'[0].rows, AllRows(w'[1..]));
    }
  }

  lemma LegsConcat(a: seq<Row>, b: seq<Row>)
    ensures LegsOf(a + b) == LegsOf(a) + LegsOf(b)
  {
  }

  lemma {:induction false} TokensByLegs(r: seq<Row>, s: seq<Row>, id: int)
    requires LegsOf(r) == LegsOf(s)
    ensures Mentions(r, id) == Mentions(s, id)
  {
    if r != [] {
      assert LegsOf(r)[0] == LegsOf(s)[0] && LegsOf(r)[1..] == LegsOf(s)[1..];
      TokensByLegs(r[1..], s[1..], id);
    }
  }

  lemma {:induction false} DistinctByLegs(r: seq<Row>, s: seq<Row>)
    requires LegsOf(r) == LegsOf(s)
    ensures DistinctTokens(r) == DistinctTokens(s)
  {
    if r != [] {
      assert LegsOf(r)[0] == LegsOf(s)[0] && LegsOf(r)[1..] == LegsOf(s)[1..];
      DistinctByLegs(r[1..], s[1..]);
      TokensByLegs(r[1..], s[1..], r[0].leg.noTokenId);
      if r[0].leg.yesTokenId.Some? {
        TokensByLegs(r[1..], s[1..], r[0].leg.yesTokenId.value);
      }
    }
  }

  lemma {:induction false} RunKeepsLegs(w: seq<Event>, calls: seq<PlannedCall>)
    ensures SameLegs(w, ExecAllW(w, calls))
    decreases |calls|
  {
    if calls != [] {
      var w' := ExecW(w, calls[0].call);
      LegsKept(w, calls[0].call);
      DistinctByLegs(AllRows(w'), AllRows(w));
      RunKeepsLegs(w', calls[1..]);
    }
  }

  /** The ranges from the `i`-th on cover the calls from `done` on. */
  ghost predicate RangesLeft(ranges: seq<Range>, i: nat, done: nat, n: nat) {
    i <= |ranges| && GasChunks.Covers(ranges[i..], done, n)
  }

  lemma RangesStart(ranges: seq<Range>, n: nat)
    requires GasChunks.Covers(ranges, 0, n)
    ensures RangesLeft(ranges, 0, 0, n)
  {
    assert ranges[0..] == ranges;
  }

  lemma RangesEnd(ranges: seq<Range>, done: nat, n: nat)
    requires RangesLeft(ranges, |ranges|, done, n)
    ensures done == n
  {
  }

  lemma RangeAt(ranges: seq<Range>, i: nat, done: nat, n: nat)
    requires i < |ranges| && RangesLeft(ranges, i, done, n)
    ensures ranges[i].start == done < ranges[i].stop <= n
    ensures RangesLeft(ranges, i + 1, ranges[i].stop, n)
  {
    assert ranges[i..][0] == ranges[i] && ranges[i..][1..] == ranges[i + 1..];
  }

  /** The first `done` calls of the plan of `w0` have landed, nothing else. */
  ghost predicate AtCall(w0: seq<Event>, w: seq<Event>, planned: seq<PlannedCall>, done: nat) {
    done <= |planned| && w == ExecAllW(w0, planned[..done])
  }

  lemma AtCallStart(w0: seq<Event>, planned: seq<PlannedCall>)
    ensures AtCall(w0, w0, planned, 0)
  {
    assert planned[..0] == [];
  }

  lemma SliceOf<T>(s: seq<T>, done: nat, stop: nat)
    requires done <= stop <= |s|
    ensures s[done..][..stop - done] == s[done..stop]
    ensures s[..done] + s[done..stop] == s[..stop]
  {
  }

  /** The calls one round plans, from what its balance read shows. */
  function Planned(w: seq<Event>, floor: int): seq<PlannedCall> {
    ShownCalls(w, floor, MAX_LEGS_PER_CONVERT)
  }

  /** The next chunk of the plan is executable, and landing it moves on along the plan. */
  lemma ChunkAdvances(
      w0: seq<Event>, w: seq<Event>, planned: seq<PlannedCall>, done: nat, stop: nat,
      chunk: seq<PlannedCall>, floor: int)
    requires WalletOk(w0) && planned == Planned(w0, floor)
    requires done <= stop <= |planned| && AtCall(w0, w, planned, done) && chunk == planned[done..stop]
    ensures AllValidW(w, chunk) && AtCall(w0, ExecAllW(w, chunk), planned, stop)
  {
    ShownPlanRuns(w0, floor, MAX_LEGS_PER_CONVERT, stop);
    SliceOf(planned, done, stop);
    RunSplit(w0, planned[..done], chunk);
    RunConcat(w0, planned[..done], chunk);
  }

  /** The request at this moment failed without exhausting the quota. */
  ghost predicate FailedAt(relay: Relay, t: nat) {
    !relay.readable(t) || relay.answers(t) == WalletBusy || relay.answers(t).OtherError?
  }

  /** The latest request, made since `start`, was answered so. */
  ghost predicate Answered(relay: Relay, start: nat, a: Answer)
    reads relay
  {
    relay.clock > start && a == relay.answers(relay.clock - 1)
  }

  /** The latest request, made since `start`, exhausted the quota. */
  ghost predicate QuotaHit(relay: Relay, start: nat)
    reads relay
  {
    relay.clock > start && relay.answers(relay.clock - 1).QuotaExhausted?
  }

  /** The latest request, made since `start`, failed without exhausting the quota. */
  ghost predicate FailedSince(relay: Relay, start: nat)
    reads relay
  {
    relay.clock > start && FailedAt(relay, relay.clock - 1)
  }

  // ----- what is submitted -----

  /** One batch of a round, submitted until the wallet is not busy or the retries are used up. */
  type BatchSent = Sending<Batch>

  predicate SettledWhen(answers: nat -> Answer, s: BatchSent, retries: int) {
    s.done == LastTry(answers, s.begun, retries) + 1
  }

  predicate Accepts(answers: nat -> Answer, s: BatchSent) {
    s.done > 0 && answers(s.done - 1) == Accepted
  }

  ghost predicate AllAccepted(answers: nat -> Answer, sent: seq<BatchSent>) {
    forall i :: 0 <= i < |sent| ==> Accepts(answers, sent[i])
  }

  /** The batches one after the other, each until it is settled, and none after one that is not accepted. */
  ghost predicate InTurn(answers: nat -> Answer, sent: seq<BatchSent>, retries: int) {
    && (forall i :: 0 <= i < |sent| ==> SettledWhen(answers, sent[i], retries))
    && forall i :: 0 <= i < |sent| - 1 ==> Accepts(answers, sent[i])
  }

  /** What the relay has logged since: these batches, in turn. */
  ghost predicate SentInTurn(relay: Relay, before: seq<Batch>, t: nat, sent: seq<BatchSent>, retries: int)
    reads relay
  {
    Logged(before, relay.log, sent, t, relay.clock) && InTurn(relay.answers, sent, retries)
  }

  lemma NothingSentYet(relay: Relay, retries: int)
    ensures SentInTurn(relay, relay.log, relay.clock, [], retries)
  {
    NothingLogged(relay.log, relay.clock);
  }

  lemma NextInTurn(
      relay: Relay, before: seq<Batch>, mid: seq<Batch>, t: nat, m: nat, past: seq<BatchSent>, next: BatchSent,
      retries: int)
    returns (sent: seq<BatchSent>)
    requires Logged(before, mid, past, t, m) && InTurn(relay.answers, past, retries)
    requires AllAccepted(relay.answers, past) && SettledWhen(relay.answers, next, retries)
    requires next == Sending(next.batch, m, relay.clock) && relay.log == mid + Copies(next.batch, next.done - m)
    ensures SentInTurn(relay, before, t, sent, retries)
    ensures Accepts(relay.answers, next) ==> AllAccepted(relay.answers, sent)
    ensures BatchesOf(sent) == BatchesOf(past) + [next.batch]
  {
    LogsOneMore(before, mid, past, t, next);
    OneMoreSent(past, next, t);
    sent := past + [next];
  }

  /** The plan of this wallet in as few submissions as the limits allow, weighed by its own events. */
  ghost predicate BestSplit(w: seq<Event>, parts: seq<Batch>, delays: Delays) {
    var planned := Planned(w, delays.singleLegMinQtyRaw);
    var maxCalls := Max(delays.maxCallsPerSubmission, 1);
    SplitsInto(w, planned, parts, maxCalls, delays.maxGasPerSubmission)
    && Fewest(w, planned, parts, maxCalls, delays.maxGasPerSubmission)
  }

  /** The batches are the first submissions of a best split of the wallet's plan. */
  ghost predicate FromBestSplit(w: seq<Event>, batches: seq<Batch>, delays: Delays) {
    exists parts :: BestSplit(w, parts, delays) && batches <= parts
  }

  lemma ChunksAreBest(w: seq<Event>, planned: Batch, ranges: seq<Range>, delays: Delays)
    requires WalletOk(w) && planned == Planned(w, delays.singleLegMinQtyRaw)
    requires GasChunks.ValidSplit(planned, ranges, 0, |planned|, Max(delays.maxCallsPerSubmission, 1),
                                  delays.maxGasPerSubmission)
    requires forall other ::
      GasChunks.ValidSplit(planned, other, 0, |planned|, Max(delays.maxCallsPerSubmission, 1),
                           delays.maxGasPerSubmission)
      ==> |ranges| <= |other|
    ensures GasChunks.Covers(ranges, 0, |planned|) && InRange(planned, ranges)
    ensures BestSplit(w, SlicesOf(planned, ranges), delays)
  {
    ShownCallsAreWeighed(w, delays.singleLegMinQtyRaw, MAX_LEGS_PER_CONVERT);
    RangesAreFewest(w, planned, ranges, Max(delays.maxCallsPerSubmission, 1), delays.maxGasPerSubmission);
    RangesSplit(w, planned, ranges, Max(delays.maxCallsPerSubmission, 1), delays.maxGasPerSubmission);
  }

  predicate InRange(planned: Batch, ranges: seq<Range>) {
    forall k :: 0 <= k < |ranges| ==> ranges[k].start <= ranges[k].stop <= |planned|
  }

  /** The batches sent are the slices of the first `i` ranges. */
  ghost predicate SentRanges(planned: Batch, ranges: seq<Range>, i: nat, batches: seq<Batch>) {
    InRange(planned, ranges) && i <= |ranges| && batches == SlicesOf(planned, ranges)[..i]
  }

  lemma SentOneRange(planned: Batch, ranges: seq<Range>, i: nat, batches: seq<Batch>, more: seq<Batch>)
    requires SentRanges(planned, ranges, i, batches) && i < |ranges|
    requires more == batches + [planned[ranges[i].start..ranges[i].stop]]
    ensures SentRanges(planned, ranges, i + 1, more)
  {
    var slices := SlicesOf(planned, ranges);
    assert slices[..i + 1] == slices[..i] + [slices[i]];
  }

  // ----- submitting -----

  /** Submits an executable batch; a busy wallet is asked again, which submits nothing. */
  method SubmitBatch(relay: Relay, calls: seq<PlannedCall>, maxRetries: int) returns (a: Answer, ghost sent: BatchSent)
    requires AllValidW(relay.state, calls)
    modifies relay
    ensures relay.clock > old(relay.clock) && a == relay.answers(relay.clock - 1)
    ensures relay.state == if Landed(a) then ExecAllW(old(relay.state), calls) else old(relay.state)
    ensures sent == Sending(calls, old(relay.clock), relay.clock) && SettledWhen(relay.answers, sent, maxRetries)
    ensures Accepts(relay.answers, sent) <==> a == Accepted
    ensures relay.log == old(relay.log) + Copies(calls, relay.clock - old(relay.clock))
  {
    ghost var t := relay.clock;
    a := relay.SubmitWithBusyRetry(calls, ExecAllW(relay.state, calls), maxRetries);
    sent := Sending(calls, t, relay.clock);
  }

  lemma ChunkLands(
      w0: seq<Event>, w: seq<Event>, w': seq<Event>, planned: seq<PlannedCall>, start: nat, stop: nat,
      chunk: seq<PlannedCall>, lands: bool)
    returns (landed: nat)
    requires AtCall(w0, w, planned, start) && AtCall(w0, ExecAllW(w, chunk), planned, stop)
    requires w' == if lands then ExecAllW(w, chunk) else w
    ensures AtCall(w0, w', planned, landed) && landed == (if lands then stop else start)
  {
    landed := if lands then stop else start;
  }

  /** Submits one executable batch in its turn. */
  method SubmitInTurn(
      relay: Relay, chunk: Batch, delays: Delays, ghost before: seq<Batch>, ghost t: nat, ghost past: seq<BatchSent>)
    returns (last: Answer, ghost sent: seq<BatchSent>)
    requires AllValidW(relay.state, chunk)
    requires SentInTurn(relay, before, t, past, delays.walletBusyMaxRetries) && AllAccepted(relay.answers, past)
    modifies relay
    ensures relay.state == if Landed(last) then ExecAllW(old(relay.state), chunk) else old(relay.state)
    ensures Answered(relay, old(relay.clock), last)
    ensures SentInTurn(relay, before, t, sent, delays.walletBusyMaxRetries)
    ensures last == Accepted ==> AllAccepted(relay.answers, sent)
    ensures BatchesOf(sent) == BatchesOf(past) + [chunk]
  {
    ghost var mid, m := relay.log, relay.clock;
    ghost var next;
    last, next := SubmitBatch(relay, chunk, delays.walletBusyMaxRetries);
    sent := NextInTurn(relay, before, mid, t, m, past, next, delays.walletBusyMaxRetries);
  }

  /** Submits the next chunk of the plan; it lands whole or not at all. */
  method SubmitChunk(
      relay: Relay, ghost w0: seq<Event>, planned: seq<PlannedCall>, start: nat, stop: nat, delays: Delays,
      ghost before: seq<Batch>, ghost t: nat, ghost past: seq<BatchSent>)
    returns (last: Answer, ghost landed: nat, ghost sent: seq<BatchSent>)
    requires WalletOk(w0) && planned == Planned(w0, delays.singleLegMinQtyRaw)
    requires start <= stop <= |planned| && AtCall(w0, relay.state, planned, start)
    requires SentInTurn(relay, before, t, past, delays.walletBusyMaxRetries) && AllAccepted(relay.answers, past)
    modifies relay
    ensures AtCall(w0, relay.state, planned, landed) && landed == (if Landed(last) then stop else start)
    ensures Answered(relay, old(relay.clock), last)
    ensures SentInTurn(relay, before, t, sent, delays.walletBusyMaxRetries)
    ensures last == Accepted ==> AllAccepted(relay.answers, sent)
    ensures BatchesOf(sent) == BatchesOf(past) + [planned[start..stop]]
  {
    var chunk := planned[start..stop];
    ghost var w := relay.state;
    ChunkAdvances(w0, w, planned, start, stop, chunk, delays.singleLegMinQtyRaw);
    last, sent := SubmitInTurn(relay, chunk, delays, before, t, past);
    landed := ChunkLands(w0, w, relay.state, planned, start, stop, chunk, Landed(last));
  }

  /** Submits the chunks in order until one is not accepted. */
  method SubmitChunks(relay: Relay, planned: seq<PlannedCall>, ranges: seq<Range>, delays: Delays)
    returns (last: Answer, ghost landed: nat, ghost sent: seq<BatchSent>)
    requires WalletOk(relay.state)
    requires planned == Planned(relay.state, delays.singleLegMinQtyRaw)
    requires GasChunks.Covers(ranges, 0, |planned|) && InRange(planned, ranges)
    modifies relay
    ensures AtCall(old(relay.state), relay.state, planned, landed)
    ensures last == Accepted ==> landed == |planned| && AllAccepted(relay.answers, sent) && |sent| == |ranges|
    ensures relay.clock >= old(relay.clock)
    ensures ranges != [] ==> Answered(relay, old(relay.clock), last)
    ensures SentInTurn(relay, old(relay.log), old(relay.clock), sent, delays.walletBusyMaxRetries)
    ensures SentRanges(planned, ranges, |sent|, BatchesOf(sent))
  {
    last, landed, sent := Accepted, 0, [];
    ghost var w0, before, t := relay.state, relay.log, relay.clock;
    RangesStart(ranges, |planned|);
    AtCallStart(w0, planned);
    NothingSentYet(relay, delays.walletBusyMaxRetries);
    for i := 0 to |ranges|
      invariant RangesLeft(ranges, i, landed, |planned|)
      invariant AtCall(w0, relay.state, planned, landed)
      invariant last == Accepted && relay.clock >= t
      invariant i > 0 ==> Answered(relay, t, last)
      invariant SentInTurn(relay, before, t, sent, delays.walletBusyMaxRetries)
      invariant AllAccepted(relay.answers, sent)
      invariant |sent| == i && SentRanges(planned, ranges, i, BatchesOf(sent))
    {
      RangeAt(ranges, i, landed, |planned|);
      ghost var past := BatchesOf(sent);
      last, landed, sent :=
        SubmitChunk(relay, w0, planned, ranges[i].start, ranges[i].stop, delays, before, t, sent);
      SentOneRange(planned, ranges, i, past, BatchesOf(sent));
      if last != Accepted {
        return;
      }
    }
    RangesEnd(ranges, landed, |planned|);
  }

  /** Packs the plan into submissions and sends them. */
  method SubmitPlanned(relay: Relay, planned: seq<PlannedCall>, delays: Delays)
    returns (last: Answer, chunks: nat, ghost landed: nat, ghost sent: seq<BatchSent>)
    requires WalletOk(relay.state) && planned != []
    requires planned == Planned(relay.state, delays.singleLegMinQtyRaw)
    modifies relay
    ensures AtCall(old(relay.state), relay.state, planned, landed)
    ensures last == Accepted ==> landed == |planned|
    ensures chunks > 0 && Answered(relay, old(relay.clock), last)
    ensures SentInTurn(relay, old(relay.log), old(relay.clock), sent, delays.walletBusyMaxRetries)
    ensures FromBestSplit(old(relay.state), BatchesOf(sent), delays)
    ensures last == Accepted ==>
      |sent| == chunks && AllAccepted(relay.answers, sent) && BestSplit(old(relay.state), BatchesOf(sent), delays)
  {
    ghost var w := relay.state;
    var ranges := ChunkByGas(planned, delays.maxCallsPerSubmission, delays.maxGasPerSubmission);
    ChunksAreBest(w, planned, ranges, delays);
    last, landed, sent := SubmitChunks(relay, planned, ranges, delays);
    chunks := |ranges|;
    SlicesAreFirst(planned, ranges, sent);
  }

  lemma SlicesAreFirst(planned: Batch, ranges: seq<Range>, sent: seq<BatchSent>)
    requires SentRanges(planned, ranges, |sent|, BatchesOf(sent))
    ensures BatchesOf(sent) <= SlicesOf(planned, ranges)
    ensures |sent| == |ranges| ==> BatchesOf(sent) == SlicesOf(planned, ranges)
  {
    var slices := SlicesOf(planned, ranges);
    assert slices[..|slices|] == slices;
  }

  /** Every event of the wallet planned, and the plans flattened. */
  method PlanRound(relay: Relay, jobs: seq<seq<ConvertLeg>>, floor: int)
    returns (r: Option<(seq<PlannedCall>, int)>)
    requires CycleReady(relay.state, jobs)
    modifies relay`clock
    ensures old(relay.clock) <= relay.clock <= old(relay.clock) + 1
    ensures r.None? ==> relay.clock == old(relay.clock) + 1 && !relay.readable(old(relay.clock))
    ensures r.Some? ==> r.value.0 == Planned(relay.state, floor)
                        && r.value.1 == SumProceeds(ShownWallet(relay.state), floor, MAX_LEGS_PER_CONVERT)
  {
    var plans := PlanJobs(relay, jobs, floor);
    if plans.None? {
      return None;
    }
    CallsOfAllPlans(ShownWallet(relay.state), plans.value, floor);
    TotalIsSum(plans.value, ShownWallet(relay.state), floor);
    var planned := PlanCalls(plans.value);
    return Some((planned.value, TotalProceeds(plans.value)));
  }

  /** The jobs are the wallet's events, whole and apart, with every token id used once. */
  ghost predicate CycleReady(w: seq<Event>, jobs: seq<seq<ConvertLeg>>) {
    WalletOk(w) && jobs == JobsOf(w) && DistinctTokens(AllRows(w))
  }

  lemma StaysReady(w0: seq<Event>, w: seq<Event>, jobs: seq<seq<ConvertLeg>>)
    requires CycleReady(w0, jobs) && Executed(w0, w)
    ensures CycleReady(w, jobs)
  {
    var calls :| AllValidW(w0, calls) && w == ExecAllW(w0, calls);
    RunKeepsWallet(w0, calls);
    RunKeepsLegs(w0, calls);
  }

  // ----- a round -----

  /** A round that succeeded: all it planned has landed and freed exactly the proceeds it reports. */
  ghost predicate RoundSettled(w: seq<Event>, w': seq<Event>, proceeds: int, floor: int) {
    && Planned(w, floor) != []
    && w' == ExecAllW(w, Planned(w, floor))
    && proceeds == SumUsdc(w') - SumUsdc(w) == SumProceeds(ShownWallet(w), floor, MAX_LEGS_PER_CONVERT)
  }

  lemma RoundSettles(w: seq<Event>, w': seq<Event>, planned: seq<PlannedCall>, proceeds: int, floor: int)
    requires WalletOk(w) && planned == Planned(w, floor) != [] && AtCall(w, w', planned, |planned|)
    requires proceeds == SumProceeds(ShownWallet(w), floor, MAX_LEGS_PER_CONVERT)
    ensures RoundSettled(w, w', proceeds, floor)
  {
    assert planned[..|planned|] == planned;
    ShownPlanFrees(w, floor, MAX_LEGS_PER_CONVERT);
  }

  /** On the plan: the chain is where a prefix of what is planned for `w`, from a read, leaves it. */
  ghost predicate OnPlan(w: seq<Event>, w': seq<Event>, floor: int) {
    exists k: nat :: AtCall(w, w', Planned(w, floor), k)
  }

  /** One round: the wallet it began with, and what it submitted from when to when. */
  datatype Round = Round(before: seq<Event>, begun: nat, sent: seq<BatchSent>, done: nat)

  /**
   * What a round submits: one after the other, the first submissions of a best split of its plan, each
   * until it is settled, and none after one that is not accepted.
   */
  ghost predicate RoundSent(answers: nat -> Answer, r: Round, delays: Delays) {
    && FromTo(r.sent, r.begun, r.done) && InTurn(answers, r.sent, delays.walletBusyMaxRetries)
    && (r.sent != [] ==> FromBestSplit(r.before, BatchesOf(r.sent), delays))
  }

  /** A round that submitted its whole plan, in the number of submissions it reports, all accepted. */
  ghost predicate RoundWhole(answers: nat -> Answer, r: Round, delays: Delays, chunks: nat) {
    |r.sent| == chunks && AllAccepted(answers, r.sent) && BestSplit(r.before, BatchesOf(r.sent), delays)
  }

  lemma NothingSubmitted(answers: nat -> Answer, log: seq<Batch>, r: Round, delays: Delays)
    requires r.sent == [] && r.begun == r.done
    ensures RoundSent(answers, r, delays) && log == log + Requests(r.sent)
  {
    assert log + [] == log;
  }

  /** One round: read, plan, chunk, submit. A failure raises, and a prefix of the round's plan has landed. */
  method RunRound(relay: Relay, jobs: seq<seq<ConvertLeg>>, delays: Delays)
    returns (outcome: Outcome, ghost round: Round)
    requires CycleReady(relay.state, jobs)
    modifies relay
    ensures OnPlan(old(relay.state), relay.state, delays.singleLegMinQtyRaw)
    ensures relay.clock >= old(relay.clock)
    ensures outcome.NoOp? ==>
      relay.state == old(relay.state) && Planned(relay.state, delays.singleLegMinQtyRaw) == []
    ensures outcome.Settled? ==> outcome.chunks > 0
    ensures outcome.Settled? ==>
      RoundSettled(old(relay.state), relay.state, outcome.proceeds, delays.singleLegMinQtyRaw)
    ensures outcome.QuotaRaised? ==> QuotaHit(relay, old(relay.clock))
    ensures outcome.Raised? ==> FailedSince(relay, old(relay.clock))
    ensures round.before == old(relay.state) && round.done == relay.clock
    ensures RoundSent(relay.answers, round, delays) && relay.log == old(relay.log) + Requests(round.sent)
    ensures outcome.Settled? ==> RoundWhole(relay.answers, round, delays, outcome.chunks)
  {
    ghost var w0 := relay.state;
    var floor := delays.singleLegMinQtyRaw;
    AtCallStart(w0, Planned(w0, floor));
    var plan := PlanRound(relay, jobs, floor);
    round := Round(w0, relay.clock, [], relay.clock);
    NothingSubmitted(relay.answers, relay.log, round, delays);
    if plan.None? {
      return Raised, round;
    }
    var (planned, proceeds) := plan.value;
    if planned == [] {
      return NoOp, round;
    }
    var last, chunks;
    ghost var landed, sent;
    last, chunks, landed, sent := SubmitPlanned(relay, planned, delays);
    round := Round(w0, round.begun, sent, relay.clock);
    if last == Accepted {
      RoundSettles(w0, relay.state, planned, proceeds, floor);
      return Settled(proceeds, chunks), round;
    }
    return if last.QuotaExhausted? then QuotaRaised else Raised, round;
  }

  // ----- the cycle -----

  lemma RoundExecutes(w: seq<Event>, w': seq<Event>, floor: int)
    requires WalletOk(w) && OnPlan(w, w', floor)
    ensures Executed(w, w')
  {
    var k: nat :| AtCall(w, w', Planned(w, floor), k);
    ShownPlanRuns(w, floor, MAX_LEGS_PER_CONVERT, k);
    assert AllValidW(w, Planned(w, floor)[..k]);
  }

  // ----- cycles that resume -----

  lemma OnPlanStart(w: seq<Event>, floor: int)
    ensures OnPlan(w, w, floor)
  {
    AtCallStart(w, Planned(w, floor));
  }

  lemma OnPlanTails(w0: seq<Event>, w: seq<Event>, floor: int)
    requires WalletOk(w0) && TailsKnown(w0, MAX_LEGS_PER_CONVERT) && OnPlan(w0, w, floor)
    ensures WalletOk(w) && TailsKnown(w, MAX_LEGS_PER_CONVERT)
  {
    var k: nat :| AtCall(w0, w, Planned(w0, floor), k);
    ShownPrefix(w0, floor, MAX_LEGS_PER_CONVERT, k);
  }

  lemma AtCallTrans(w0: seq<Event>, w1: seq<Event>, w2: seq<Event>, floor: int, k: nat, m: nat)
    requires WalletOk(w0) && TailsKnown(w0, MAX_LEGS_PER_CONVERT)
    requires AtCall(w0, w1, Planned(w0, floor), k) && AtCall(w1, w2, Planned(w1, floor), m)
    ensures AtCall(w0, w2, Planned(w0, floor), k + m)
  {
    var calls := Planned(w0, floor);
    ShownPrefix(w0, floor, MAX_LEGS_PER_CONVERT, k);
    SliceConcat(calls, k, m);
    RunConcat(w0, calls[..k], calls[k..][..m]);
  }

  /** With known tails, a round that begins on the plan goes on along it. */
  lemma OnPlanTrans(w0: seq<Event>, w1: seq<Event>, w2: seq<Event>, floor: int)
    requires WalletOk(w0) && TailsKnown(w0, MAX_LEGS_PER_CONVERT) && OnPlan(w0, w1, floor) && OnPlan(w1, w2, floor)
    ensures OnPlan(w0, w2, floor)
  {
    var k: nat :| AtCall(w0, w1, Planned(w0, floor), k);
    var m: nat :| AtCall(w1, w2, Planned(w1, floor), m);
    AtCallTrans(w0, w1, w2, floor, k, m);
  }

  /** With known tails, a settled round leaves nothing to plan. */
  lemma SettledLeavesNothing(w: seq<Event>, w': seq<Event>, floor: int)
    requires WalletOk(w) && TailsKnown(w, MAX_LEGS_PER_CONVERT) && w' == ExecAllW(w, Planned(w, floor))
    ensures Planned(w', floor) == []
  {
    var calls := Planned(w, floor);
    assert calls[..|calls|] == calls;
    ShownPrefix(w, floor, MAX_LEGS_PER_CONVERT, |calls|);
  }

  /**
   * Nothing is left to plan, and everything planned for `w0` has been freed. No interleaving of
   * merges, splits and converts over the wallet could have freed more, exactly when nothing is lost
   * to legs that cannot be merged or are not shown.
   */
  ghost predicate AllFreed(w0: seq<Event>, w: seq<Event>, floor: int) {
    && Planned(w, floor) == []
    && SumUsdc(w) - SumUsdc(w0) == SumProceeds(ShownWallet(w0), floor, MAX_LEGS_PER_CONVERT)
    && (NothingBeatsTogether(w0, SumUsdc(w) - SumUsdc(w0)) <==> AllSeen(w0, MAX_LEGS_PER_CONVERT))
  }

  lemma FreedSoFar(w0: seq<Event>, w: seq<Event>, floor: int)
    requires WalletOk(w0) && TailsKnown(w0, MAX_LEGS_PER_CONVERT) && OnPlan(w0, w, floor) && Planned(w, floor) == []
    ensures SumUsdc(w) - SumUsdc(w0) == SumProceeds(ShownWallet(w0), floor, MAX_LEGS_PER_CONVERT)
  {
    var k: nat :| AtCall(w0, w, Planned(w0, floor), k);
    ShownPrefix(w0, floor, MAX_LEGS_PER_CONVERT, k);
    NothingLeftNoProceeds(ShownWallet(w), floor, MAX_LEGS_PER_CONVERT);
  }

  lemma CycleDone(w0: seq<Event>, w: seq<Event>, floor: int)
    requires WalletOk(w0) && TailsKnown(w0, MAX_LEGS_PER_CONVERT) && OnPlan(w0, w, floor) && Planned(w, floor) == []
    ensures AllFreed(w0, w, floor)
  {
    FreedSoFar(w0, w, floor);
    ShownPlansAreOptimalIff(w0, floor, MAX_LEGS_PER_CONVERT);
  }

  /** With every YES token id known the tails are known, and only unmergeable legs can be lost. */
  lemma AllKnown(w: seq<Event>)
    requires forall i :: 0 <= i < |w| ==> YesKnown(LegsOf(w[i].rows))
    ensures TailsKnown(w, MAX_LEGS_PER_CONVERT) && ShownWallet(w) == w
    ensures AllSeen(w, MAX_LEGS_PER_CONVERT) <==> AllRecoverable(w, MAX_LEGS_PER_CONVERT)
  {
    WhenTailsKnown(w, MAX_LEGS_PER_CONVERT);
    KnownWalletIsShown(w);
    forall i | 0 <= i < |w| ensures ShownRows(w[i].rows) == w[i].rows {
      KnownIsShown(w[i]);
    }
  }

  /** The reported proceeds are those of a last round, begun where the earlier ones had got to. */
  ghost predicate LastRoundSettled(w0: seq<Event>, w: seq<Event>, proceeds: int, floor: int) {
    exists w1 :: Executed(w0, w1) && RoundSettled(w1, w, proceeds, floor)
  }

  /** How a cycle begun at `w0` succeeds. */
  ghost predicate Success(w0: seq<Event>, w: seq<Event>, floor: int, outcome: Outcome) {
    && (TailsKnown(w0, MAX_LEGS_PER_CONVERT) ==> AllFreed(w0, w, floor))
    && (outcome.NoOp? ==> Planned(w, floor) == [])
    && (outcome.Settled? ==> outcome.chunks > 0 && LastRoundSettled(w0, w, outcome.proceeds, floor))
  }

  /** Where a cycle begun at `w0` may stand: executable calls led there, with known tails a prefix of its plan. */
  ghost predicate Underway(w0: seq<Event>, w: seq<Event>, floor: int) {
    Executed(w0, w) && (TailsKnown(w0, MAX_LEGS_PER_CONVERT) ==> OnPlan(w0, w, floor))
  }

  lemma UnderwayStart(w: seq<Event>, floor: int)
    ensures Underway(w, w, floor)
  {
    assert AllValidW(w, []);
    OnPlanStart(w, floor);
  }

  lemma UnderwayNext(w0: seq<Event>, w1: seq<Event>, w: seq<Event>, floor: int)
    requires WalletOk(w0) && WalletOk(w1) && Underway(w0, w1, floor) && OnPlan(w1, w, floor)
    ensures Underway(w0, w, floor)
  {
    RoundExecutes(w1, w, floor);
    ExecutedTrans(w0, w1, w);
    if TailsKnown(w0, MAX_LEGS_PER_CONVERT) {
      OnPlanTrans(w0, w1, w, floor);
    }
  }

  lemma Succeeds(w0: seq<Event>, w1: seq<Event>, w: seq<Event>, floor: int, outcome: Outcome)
    requires WalletOk(w0) && WalletOk(w1) && Underway(w0, w1, floor) && Underway(w0, w, floor)
    requires outcome.NoOp? ==> w == w1 && Planned(w, floor) == []
    requires outcome.Settled? ==> outcome.chunks > 0 && RoundSettled(w1, w, outcome.proceeds, floor)
    requires outcome.NoOp? || outcome.Settled?
    ensures Success(w0, w, floor, outcome)
  {
    if TailsKnown(w0, MAX_LEGS_PER_CONVERT) {
      OnPlanTails(w0, w1, floor);
      if outcome.Settled? {
        SettledLeavesNothing(w1, w, floor);
      }
      CycleDone(w0, w, floor);
    }
  }

  /** One round of a cycle that began at `w0`. */
  method NextRound(relay: Relay, ghost w0: seq<Event>, jobs: seq<seq<ConvertLeg>>, delays: Delays)
    returns (outcome: Outcome, ghost round: Round)
    requires CycleReady(w0, jobs) && Underway(w0, relay.state, delays.singleLegMinQtyRaw)
    modifies relay
    ensures Underway(w0, relay.state, delays.singleLegMinQtyRaw) && relay.clock >= old(relay.clock)
    ensures outcome.NoOp? ==> relay.state == old(relay.state)
    ensures outcome.NoOp? || outcome.Settled? ==>
      Success(w0, relay.state, delays.singleLegMinQtyRaw, outcome)
    ensures outcome.Settled? ==>
      RoundSettled(old(relay.state), relay.state, outcome.proceeds, delays.singleLegMinQtyRaw)
    ensures outcome.QuotaRaised? ==> QuotaHit(relay, old(relay.clock))
    ensures outcome.Raised? ==> FailedSince(relay, old(relay.clock))
    ensures round.before == old(relay.state)
    ensures RoundSent(relay.answers, round, delays) && relay.log == old(relay.log) + Requests(round.sent)
    ensures outcome.Settled? ==> RoundWhole(relay.answers, round, delays, outcome.chunks)
  {
    var floor := delays.singleLegMinQtyRaw;
    ghost var w1 := relay.state;
    StaysReady(w0, w1, jobs);
    outcome, round := RunRound(relay, jobs, delays);
    UnderwayNext(w0, w1, relay.state, floor);
    if outcome.NoOp? || outcome.Settled? {
      Succeeds(w0, w1, relay.state, floor, outcome);
    }
  }

  /** Failed requests of one cycle, in order. */
  ghost predicate Failures(relay: Relay, times: seq<nat>, start: nat, end: nat) {
    && (forall i :: 0 <= i < |times| ==> start <= times[i] < end && FailedAt(relay, times[i]))
    && forall i, j :: 0 <= i < j < |times| ==> times[i] < times[j]
  }

  lemma OneMoreFailure(relay: Relay, times: seq<nat>, start: nat, end: nat)
    requires Failures(relay, times, start, end) && start <= end && FailedSince(relay, end)
    ensures Failures(relay, times + [relay.clock - 1], start, relay.clock)
  {
  }

  lemma NoFailuresYet(relay: Relay, times: seq<nat>, start: nat, end: nat, later: nat)
    requires Failures(relay, times, start, end) && end <= later
    ensures Failures(relay, times, start, later)
  {
  }

  /** Everything the rounds submitted, in order. */
  function AllRequests(rounds: seq<Round>): seq<Batch> {
    if rounds == [] then [] else AllRequests(rounds[..|rounds| - 1]) + Requests(rounds[|rounds| - 1].sent)
  }

  /** A round of a cycle begun at `w0`: what it submitted is the batches of its own plan. */
  ghost predicate RoundOf(answers: nat -> Answer, w0: seq<Event>, r: Round, delays: Delays) {
    RoundSent(answers, r, delays) && Underway(w0, r.before, delays.singleLegMinQtyRaw)
  }

  ghost predicate AllRoundsOf(answers: nat -> Answer, w0: seq<Event>, rounds: seq<Round>, delays: Delays) {
    forall i :: 0 <= i < |rounds| ==> RoundOf(answers, w0, rounds[i], delays)
  }

  /** What the relay has logged over these rounds, and nothing else. */
  ghost predicate RoundsSent(
    relay: Relay, before: seq<Batch>, w0: seq<Event>, rounds: seq<Round>, delays: Delays)
    reads relay
  {
    relay.log == before + AllRequests(rounds) && AllRoundsOf(relay.answers, w0, rounds, delays)
  }

  lemma NoRoundYet(relay: Relay, w0: seq<Event>, delays: Delays)
    ensures RoundsSent(relay, relay.log, w0, [], delays)
  {
    assert relay.log + [] == relay.log;
  }

  lemma OneMoreRound(
      relay: Relay, before: seq<Batch>, mid: seq<Batch>, w0: seq<Event>, rounds: seq<Round>, round: Round,
      delays: Delays)
    requires mid == before + AllRequests(rounds) && relay.log == mid + Requests(round.sent)
    requires AllRoundsOf(relay.answers, w0, rounds, delays) && RoundOf(relay.answers, w0, round, delays)
    ensures RoundsSent(relay, before, w0, rounds + [round], delays)
  {
    assert (rounds + [round])[..|rounds|] == rounds;
    AppendAssoc(before, AllRequests(rounds), Requests(round.sent));
    RoundsAppend(relay.answers, w0, rounds, round, delays);
  }

  lemma RoundsAppend(answers: nat -> Answer, w0: seq<Event>, rounds: seq<Round>, round: Round, delays: Delays)
    requires AllRoundsOf(answers, w0, rounds, delays) && RoundOf(answers, w0, round, delays)
    ensures AllRoundsOf(answers, w0, rounds + [round], delays)
  {
    forall i | 0 <= i < |rounds + [round]| ensures RoundOf(answers, w0, (rounds + [round])[i], delays) {
      assert i < |rounds| ==> (rounds + [round])[i] == rounds[i];
    }
  }

  /** One round of a cycle, added to those before it. */
  method AddRound(
      relay: Relay, ghost w0: seq<Event>, jobs: seq<seq<ConvertLeg>>, delays: Delays, ghost before: seq<Batch>,
      ghost past: seq<Round>)
    returns (outcome: Outcome, ghost rounds: seq<Round>)
    requires CycleReady(w0, jobs) && Underway(w0, relay.state, delays.singleLegMinQtyRaw)
    requires RoundsSent(relay, before, w0, past, delays)
    modifies relay
    ensures Underway(w0, relay.state, delays.singleLegMinQtyRaw) && relay.clock >= old(relay.clock)
    ensures outcome.NoOp? ==> relay.state == old(relay.state)
    ensures outcome.NoOp? || outcome.Settled? ==>
      Success(w0, relay.state, delays.singleLegMinQtyRaw, outcome)
    ensures outcome.Settled? ==>
      RoundSettled(old(relay.state), relay.state, outcome.proceeds, delays.singleLegMinQtyRaw)
    ensures outcome.QuotaRaised? ==> QuotaHit(relay, old(relay.clock))
    ensures outcome.Raised? ==> FailedSince(relay, old(relay.clock))
    ensures |rounds| == |past| + 1 && RoundsSent(relay, before, w0, rounds, delays)
    ensures outcome.Settled? ==> RoundWhole(relay.answers, rounds[|past|], delays, outcome.chunks)
  {
    ghost var mid, round := relay.log, Round([], 0, [], 0);
    outcome, round := NextRound(relay, w0, jobs, delays);
    OneMoreRound(relay, before, mid, w0, past, round, delays);
    rounds := past + [round];
  }

  /** Where a cycle begun at `w0` stands after rounds that failed: what moved the chain, and what was submitted. */
  ghost predicate CycleAt(
    relay: Relay, w0: seq<Event>, log0: seq<Batch>, t0: nat, delays: Delays, failures: seq<nat>, rounds: seq<Round>)
    reads relay
  {
    && Underway(w0, relay.state, delays.singleLegMinQtyRaw)
    && t0 <= relay.clock && Failures(relay, failures, t0, relay.clock)
    && |rounds| == |failures| && RoundsSent(relay, log0, w0, rounds, delays)
  }

  /** How a cycle ends that does not fail in the end. */
  ghost predicate CycleOver(
    relay: Relay, w0: seq<Event>, log0: seq<Batch>, t0: nat, delays: Delays, failures: seq<nat>, rounds: seq<Round>,
    outcome: Outcome)
    reads relay
  {
    && Underway(w0, relay.state, delays.singleLegMinQtyRaw) && Failures(relay, failures, t0, relay.clock)
    && (outcome.NoOp? || outcome.Settled? ==> Success(w0, relay.state, delays.singleLegMinQtyRaw, outcome))
    && (outcome.QuotaRaised? ==> QuotaHit(relay, t0))
    && |rounds| == |failures| + 1 && RoundsSent(relay, log0, w0, rounds, delays)
    && (outcome.Settled? ==> RoundWhole(relay.answers, rounds[|failures|], delays, outcome.chunks))
  }

  lemma CycleStarts(relay: Relay, delays: Delays)
    ensures CycleAt(relay, relay.state, relay.log, relay.clock, delays, [], [])
  {
    UnderwayStart(relay.state, delays.singleLegMinQtyRaw);
    NoRoundYet(relay, relay.state, delays);
  }

  lemma FailsAgain(
      relay: Relay, w0: seq<Event>, log0: seq<Batch>, t0: nat, delays: Delays, failures: seq<nat>, rounds: seq<Round>,
      before: nat)
    requires Failures(relay, failures, t0, before) && t0 <= before && FailedSince(relay, before)
    requires Underway(w0, relay.state, delays.singleLegMinQtyRaw)
    requires |rounds| == |failures| + 1 && RoundsSent(relay, log0, w0, rounds, delays)
    ensures CycleAt(relay, w0, log0, t0, delays, failures + [relay.clock - 1], rounds)
  {
    OneMoreFailure(relay, failures, t0, before);
  }

  lemma EndsWell(
      relay: Relay, w0: seq<Event>, log0: seq<Batch>, t0: nat, delays: Delays, failures: seq<nat>, rounds: seq<Round>,
      before: nat, outcome: Outcome)
    requires Failures(relay, failures, t0, before) && t0 <= before <= relay.clock
    requires Underway(w0, relay.state, delays.singleLegMinQtyRaw)
    requires outcome.NoOp? || outcome.Settled? ==> Success(w0, relay.state, delays.singleLegMinQtyRaw, outcome)
    requires outcome.QuotaRaised? ==> QuotaHit(relay, before)
    requires |rounds| == |failures| + 1 && RoundsSent(relay, log0, w0, rounds, delays)
    requires outcome.Settled? ==> RoundWhole(relay.answers, rounds[|failures|], delays, outcome.chunks)
    ensures CycleOver(relay, w0, log0, t0, delays, failures, rounds, outcome)
  {
    NoFailuresYet(relay, failures, t0, before, relay.clock);
  }

  /** One more round of the cycle, and whether it fails. */
  method Attempt(
      relay: Relay, ghost w0: seq<Event>, jobs: seq<seq<ConvertLeg>>, delays: Delays, ghost log0: seq<Batch>,
      ghost t0: nat, ghost failures: seq<nat>, ghost past: seq<Round>)
    returns (outcome: Outcome, ghost rounds: seq<Round>)
    requires CycleReady(w0, jobs) && CycleAt(relay, w0, log0, t0, delays, failures, past)
    modifies relay
    ensures outcome == Raised ==>
      relay.clock > 0 && CycleAt(relay, w0, log0, t0, delays, failures + [relay.clock - 1], rounds)
    ensures outcome != Raised ==> CycleOver(relay, w0, log0, t0, delays, failures, rounds, outcome)
    ensures outcome.NoOp? ==> relay.state == old(relay.state)
    ensures outcome.Settled? ==>
      RoundSettled(old(relay.state), relay.state, outcome.proceeds, delays.singleLegMinQtyRaw)
  {
    ghost var before := relay.clock;
    outcome, rounds := AddRound(relay, w0, jobs, delays, log0, past);
    if outcome == Raised {
      FailsAgain(relay, w0, log0, t0, delays, failures, rounds, before);
    } else {
      EndsWell(relay, w0, log0, t0, delays, failures, rounds, before, outcome);
    }
  }

  /**
   * The whole cycle, for any jobs. In every run executable calls alone move the chain. A successful
   * return reports exactly what its last round freed. If every holding past the leg cap has a known
   * YES token id, the chain is at every moment along the plan of the initial balances, and success
   * means all of it is freed. The cycle gives up only on an exhausted quota or after every round has failed.
   * Each round submits its plan in as few batches as the limits allow, and success reports how many.
   */
  method ProcessJobs(relay: Relay, jobs: seq<seq<ConvertLeg>>, delays: Delays)
    returns (outcome: Outcome, ghost failures: seq<nat>, ghost rounds: seq<Round>)
    requires CycleReady(relay.state, jobs)
    modifies relay
    ensures Underway(old(relay.state), relay.state, delays.singleLegMinQtyRaw)
    ensures outcome.NoOp? || outcome.Settled? ==>
      Success(old(relay.state), relay.state, delays.singleLegMinQtyRaw, outcome)
    ensures Failures(relay, failures, old(relay.clock), relay.clock)
    ensures outcome.Raised? <==> |failures| == 3
    ensures outcome.QuotaRaised? ==> QuotaHit(relay, old(relay.clock))
    ensures outcome.NoOp? && failures == [] ==> relay.state == old(relay.state)
    ensures outcome.Settled? && failures == [] ==>
      RoundSettled(old(relay.state), relay.state, outcome.proceeds, delays.singleLegMinQtyRaw)
    ensures RoundsSent(relay, old(relay.log), old(relay.state), rounds, delays)
    ensures |rounds| == if outcome.Raised? then 3 else |failures| + 1
    ensures outcome.Settled? ==> RoundWhole(relay.answers, rounds[|failures|], delays, outcome.chunks)
  {
    ghost var w0, log0, t0 := relay.state, relay.log, relay.clock;
    CycleStarts(relay, delays);
    failures, rounds := [], [];
    for attempt := 0 to REBUILD_ATTEMPTS + 1
      invariant |failures| == attempt && CycleAt(relay, w0, log0, t0, delays, failures, rounds)
      invariant attempt == 0 ==> relay.state == w0
    {
      outcome, rounds := Attempt(relay, w0, jobs, delays, log0, t0, failures, rounds);
      if outcome != Raised {
        return;
      }
      failures := failures + [relay.clock - 1];
    }
    outcome := Raised;
  }
}
