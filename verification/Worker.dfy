/**
 * The background worker: jobs queue up, one pass drains them into a single cycle over the distinct
 * events, and one result per consumed job comes out, duplicates included, whatever the cycle does.
 */
module Worker {
  import opened Base
  import opened Ledger

  datatype Job = Job(slug: string, legs: seq<ConvertLeg>, amountRaw: int, attempts: int, queuedAt: real)

  /** How one cycle ended: its detail, or the error it raised. */
  datatype Outcome = Done(detail: string) | Quota | Failed(message: string)

  datatype JobResult = JobResult(
    slug: string, amountRaw: int, nLegs: nat, success: bool, quotaBlocked: bool, attempts: int, detail: string)

  function ResultOf(job: Job, outcome: Outcome): JobResult {
    match outcome
    case Done(detail) => JobResult(job.slug, job.amountRaw, |job.legs|, true, false, job.attempts, detail)
    case Quota => JobResult(job.slug, job.amountRaw, |job.legs|, false, true, job.attempts, "quota exhausted")
    case Failed(message) => JobResult(job.slug, job.amountRaw, |job.legs|, false, false, job.attempts, message)
  }

  function ResultsOf(batch: seq<Job>, outcome: Outcome): seq<JobResult> {
    if batch == [] then []
    else ResultsOf(batch[..|batch| - 1], outcome) + [ResultOf(batch[|batch| - 1], outcome)]
  }

  // ----- one job per slug -----

  predicate HasSlug(batch: seq<Job>, slug: string) {
    exists i :: 0 <= i < |batch| && batch[i].slug == slug
  }

  /** The first job of every slug, in queue order. */
  function FirstPerSlug(batch: seq<Job>): seq<Job> {
    if batch == [] then []
    else FirstPerSlug(batch[..|batch| - 1])
         + if HasSlug(batch[..|batch| - 1], batch[|batch| - 1].slug) then [] else [batch[|batch| - 1]]
  }

  lemma FirstPerSlugStep(batch: seq<Job>, n: nat)
    requires n < |batch|
    ensures HasSlug(batch[..n], batch[n].slug) ==> FirstPerSlug(batch[..n + 1]) == FirstPerSlug(batch[..n])
    ensures !HasSlug(batch[..n], batch[n].slug) ==>
      FirstPerSlug(batch[..n + 1]) == FirstPerSlug(batch[..n]) + [batch[n]]
  {
    assert batch[..n + 1][..n] == batch[..n];
  }

  lemma HasSlugStep(batch: seq<Job>, n: nat, slug: string)
    requires n < |batch|
    ensures HasSlug(batch[..n + 1], slug) <==> HasSlug(batch[..n], slug) || batch[n].slug == slug
  {
    if HasSlug(batch[..n], slug) {
      var i :| 0 <= i < |batch[..n]| && batch[..n][i].slug == slug;
      assert batch[..n + 1][i].slug == slug;
    }
    if batch[n].slug == slug {
      assert batch[..n + 1][n].slug == slug;
    }
  }

  method DedupBySlug(batch: seq<Job>) returns (uniques: seq<Job>)
    ensures uniques == FirstPerSlug(batch)
  {
    var seen: set<string> := {};
    uniques := [];
    for n := 0 to |batch|
      invariant uniques == FirstPerSlug(batch[..n])
      invariant forall slug :: slug in seen <==> HasSlug(batch[..n], slug)
    {
      FirstPerSlugStep(batch, n);
      forall slug ensures HasSlug(batch[..n + 1], slug) <==> HasSlug(batch[..n], slug) || batch[n].slug == slug {
        HasSlugStep(batch, n, slug);
      }
      if batch[n].slug !in seen {
        seen := seen + {batch[n].slug};
        uniques := uniques + [batch[n]];
      }
    }
    assert batch[..|batch|] == batch;
  }

  /** No slug runs twice, none is missed. */
  lemma {:induction false} OneJobPerSlug(batch: seq<Job>)
    ensures forall i, j :: 0 <= i < j < |FirstPerSlug(batch)| ==>
      FirstPerSlug(batch)[i].slug != FirstPerSlug(batch)[j].slug
    ensures forall slug :: HasSlug(FirstPerSlug(batch), slug) <==> HasSlug(batch, slug)
  {
    if batch != [] {
      var n := |batch| - 1;
      OneJobPerSlug(batch[..n]);
      FirstPerSlugStep(batch, n);
      assert batch[..n + 1] == batch;
      var uniques, front := FirstPerSlug(batch), FirstPerSlug(batch[..n]);
      forall slug ensures HasSlug(uniques, slug) <==> HasSlug(batch, slug) {
        HasSlugStep(batch, n, slug);
        if uniques != front {
          HasSlugStep(uniques, |front|, slug);
          assert uniques[..|front|] == front && uniques[..|front| + 1] == uniques;
        }
      }
      forall i: nat | i < |front| ensures HasSlug(batch[..n], front[i].slug) {
        assert HasSlug(front, front[i].slug);
      }
    }
  }

  /** `job` is queued in the batch, and no earlier job has its slug. */
  ghost predicate QueuedFirst(batch: seq<Job>, job: Job) {
    exists i :: 0 <= i < |batch| && batch[i] == job && !HasSlug(batch[..i], job.slug)
  }

  lemma QueuedFirstStep(batch: seq<Job>, job: Job)
    requires batch != []
    ensures QueuedFirst(batch, job)
       <==> QueuedFirst(batch[..|batch| - 1], job)
            || (batch[|batch| - 1] == job && !HasSlug(batch[..|batch| - 1], job.slug))
  {
    var front := batch[..|batch| - 1];
    if QueuedFirst(front, job) {
      var i: nat :| i < |front| && front[i] == job && !HasSlug(front[..i], job.slug);
      assert front[..i] == batch[..i] && batch[i] == job;
    }
    if QueuedFirst(batch, job) {
      var i: nat :| i < |batch| && batch[i] == job && !HasSlug(batch[..i], job.slug);
      assert i < |front| ==> front[..i] == batch[..i] && front[i] == job;
    }
  }

  /** What runs for a slug is the job that queued first. */
  lemma {:induction false} FirstOccurrenceRuns(batch: seq<Job>, job: Job)
    ensures job in FirstPerSlug(batch) <==> QueuedFirst(batch, job)
  {
    if batch != [] {
      FirstOccurrenceRuns(batch[..|batch| - 1], job);
      QueuedFirstStep(batch, job);
    }
  }

  /** The jobs that run keep their queue order. */
  lemma {:induction false} DedupKeepsOrder(batch: seq<Job>)
    ensures InOrder(FirstPerSlug(batch), batch)
  {
    if batch != [] {
      var n := |batch| - 1;
      DedupKeepsOrder(batch[..n]);
      var front := FirstPerSlug(batch[..n]);
      if HasSlug(batch[..n], batch[n].slug) {
        assert front + [] == front;
      } else {
        assert (front + [batch[n]])[..|front|] == front;
      }
    }
  }

  // ----- settling -----

  /** How long the youngest job of the batch still has to wait. */
  function FillResidual(batch: seq<Job>, now: real, delay: real): real {
    if batch == [] then 0.0
    else
      var rest := FillResidual(batch[1..], now, delay);
      var own := if delay - (now - batch[0].queuedAt) > 0.0 then delay - (now - batch[0].queuedAt) else 0.0;
      if own > rest then own else rest
  }

  predicate Settled(batch: seq<Job>, now: real, delay: real) {
    forall i :: 0 <= i < |batch| ==> now - batch[i].queuedAt >= delay
  }

  /** Waiting the residual settles every job, and no shorter wait does. */
  lemma {:induction false} ResidualSettles(batch: seq<Job>, now: real, delay: real, wait: real)
    requires wait >= 0.0
    ensures FillResidual(batch, now, delay) >= 0.0
    ensures Settled(batch, now + wait, delay) <==> wait >= FillResidual(batch, now, delay)
  {
    if batch != [] {
      ResidualSettles(batch[1..], now, delay, wait);
      SettledCons(batch, now + wait, delay);
    }
  }

  lemma SettledCons(batch: seq<Job>, now: real, delay: real)
    requires batch != []
    ensures Settled(batch, now, delay)
       <==> now - batch[0].queuedAt >= delay && Settled(batch[1..], now, delay)
  {
    assert batch == [batch[0]] + batch[1..];
  }

  // ----- runs -----

  /** One finished pass: what it consumed, what its cycle ran on, and how that ended. */
  datatype Cycle = Cycle(batch: seq<Job>, uniques: seq<Job>, startedAt: real, outcome: Outcome)

  function Consumed(cycles: seq<Cycle>): seq<Job> {
    if cycles == [] then [] else Consumed(cycles[..|cycles| - 1]) + cycles[|cycles| - 1].batch
  }

  function Emitted(cycles: seq<Cycle>): seq<JobResult> {
    if cycles == [] then []
    else Emitted(cycles[..|cycles| - 1]) + ResultsOf(cycles[|cycles| - 1].batch, cycles[|cycles| - 1].outcome)
  }

  /** Running distinct events: how the `n`-th call ends on these jobs. Anything may be behind it. */
  type Process = (nat, seq<Job>) -> Outcome

  /** The `n`-th cycle ran once, on the first job of every slug, with every fill settled; its outcome is that run's. */
  ghost predicate GoodCycle(c: Cycle, n: nat, delay: real, process: Process) {
    && c.batch != [] && c.uniques == FirstPerSlug(c.batch) && Settled(c.batch, c.startedAt, delay)
    && c.outcome == process(n, c.uniques)
  }

  ghost predicate AllGood(cycles: seq<Cycle>, delay: real, process: Process) {
    forall i :: 0 <= i < |cycles| ==> GoodCycle(cycles[i], i, delay, process)
  }

  /** What arrives around one pass, how long its waits overrun, and how long its cycle takes. */
  datatype Pass = Pass(before: seq<Job>, during: seq<Job>, late: seq<Job>, overrun: real, spent: real)

  function Offered(passes: seq<Pass>): seq<Job> {
    if passes == [] then []
    else Offered(passes[..|passes| - 1])
         + passes[|passes| - 1].before + passes[|passes| - 1].during + passes[|passes| - 1].late
  }

  /** What is still queued after a run: only what came too late for its last pass. */
  function Waiting(passes: seq<Pass>): seq<Job> {
    if passes == [] then []
    else
      var p := passes[|passes| - 1];
      if Waiting(passes[..|passes| - 1]) + p.before == [] then p.during + p.late else p.late
  }

  /** The batches of a run: a burst of jobs shares one cycle. */
  function Shared(passes: seq<Pass>): seq<seq<Job>> {
    if passes == [] then []
    else
      var p := passes[|passes| - 1];
      var queued := Waiting(passes[..|passes| - 1]) + p.before;
      Shared(passes[..|passes| - 1]) + if queued == [] then [] else [queued + p.during]
  }

  function Batches(cycles: seq<Cycle>): seq<seq<Job>> {
    if cycles == [] then [] else Batches(cycles[..|cycles| - 1]) + [cycles[|cycles| - 1].batch]
  }

  class ConvertWorker {
    var queue: seq<Job>
    var results: seq<JobResult>
    var clock: real
    ghost var cycles: seq<Cycle>
    /** Calls made to `process` so far. */
    var runs: nat
    const fillDelay: real
    const process: Process

    constructor (fillDelay: real, process: Process, now: real)
      ensures queue == [] && results == [] && cycles == [] && clock == now && runs == 0
      ensures this.fillDelay == fillDelay && this.process == process
    {
      queue, results, clock, cycles, runs := [], [], now, [], 0;
      this.fillDelay, this.process := fillDelay, process;
    }

    /** One run of the merge/convert cycle over these jobs. */
    method ProcessJobs(jobs: seq<Job>) returns (outcome: Outcome)
      modifies this`runs
      ensures runs == old(runs) + 1 && outcome == process(old(runs), jobs)
    {
      outcome := process(runs, jobs);
      runs := runs + 1;
    }

    /** Every result so far belongs to a finished cycle, and every cycle was deduplicated and settled. */
    ghost predicate Valid()
      reads this
    {
      results == Emitted(cycles) && runs == |cycles| && AllGood(cycles, fillDelay, process)
    }

    method Sleep(seconds: real, overrun: real)
      requires seconds >= 0.0 && overrun >= 0.0
      modifies this`clock
      ensures clock == old(clock) + seconds + overrun
    {
      clock := clock + seconds + overrun;
    }

    /** Takes everything that is queued now. */
    method Drain(first: seq<Job>) returns (batch: seq<Job>)
      modifies this`queue
      ensures batch == first + old(queue) && queue == []
    {
      batch := first;
      while queue != []
        invariant batch + queue == first + old(queue)
        decreases |queue|
      {
        AppendAssoc(batch, [queue[0]], queue[1..]);
        assert [queue[0]] + queue[1..] == queue;
        batch := batch + [queue[0]];
        queue := queue[1..];
      }
      assert batch + [] == batch;
    }

    /** Puts one result per job of the batch, in order. */
    method PutResults(batch: seq<Job>, outcome: Outcome)
      modifies this`results
      ensures results == old(results) + ResultsOf(batch, outcome)
    {
      for n := 0 to |batch|
        invariant results == old(results) + ResultsOf(batch[..n], outcome)
      {
        ResultsStep(batch, n, outcome);
        AppendAssoc(old(results), ResultsOf(batch[..n], outcome), [ResultOf(batch[n], outcome)]);
        results := results + [ResultOf(batch[n], outcome)];
      }
      assert batch[..|batch|] == batch;
    }

    /** Waits until every job has settled, runs one cycle over the distinct events, and reports. */
    method RunCycle(batch: seq<Job>, p: Pass)
      requires Valid() && batch != [] && p.overrun >= 0.0 && p.spent >= 0.0
      modifies this
      ensures Valid()
      ensures queue == old(queue) + p.late
      ensures |cycles| == |old(cycles)| + 1 && cycles[..|old(cycles)|] == old(cycles)
      ensures cycles[|old(cycles)|].batch == batch
    {
      var residual := FillResidual(batch, clock, fillDelay);
      ResidualSettles(batch, clock, fillDelay, 0.0);
      ResidualSettles(batch, clock, fillDelay, residual + p.overrun);
      Sleep(residual, p.overrun);
      var uniques := DedupBySlug(batch);
      ghost var startedAt := clock;
      var outcome := ProcessJobs(uniques);
      queue := queue + p.late;
      ghost var cycle := Cycle(batch, uniques, startedAt, outcome);
      PutResults(batch, outcome);
      EmittedStep(cycles, cycle);
      cycles := cycles + [cycle];
      Sleep(p.spent, 0.0);
    }

    /** Takes the first job, waits for its fill to settle, and drains whatever queued meanwhile. */
    method TakeBatch(p: Pass) returns (batch: seq<Job>)
      requires queue != [] && p.overrun >= 0.0
      modifies this`queue, this`clock
      ensures batch == old(queue) + p.during && queue == []
    {
      ghost var waiting := queue;
      batch := [queue[0]];
      queue := queue[1..];
      assert batch + queue == waiting;
      ResidualSettles(batch, clock, fillDelay, 0.0);
      Sleep(FillResidual(batch, clock, fillDelay), p.overrun);
      AppendAssoc(batch, queue, p.during);
      queue := queue + p.during;
      batch := Drain(batch);
    }

    /**
     * One pass. With an empty queue the worker keeps waiting; otherwise it consumes the first job and
     * everything queued by the end of the first wait. Later arrivals are left for the next pass.
     */
    method RunPass(p: Pass) returns (ran: bool)
      requires Valid() && p.overrun >= 0.0 && p.spent >= 0.0
      modifies this
      ensures Valid()
      ensures ran == (old(queue) + p.before != [])
      ensures !ran ==> queue == p.during + p.late && cycles == old(cycles) && results == old(results)
      ensures ran ==> queue == p.late
      ensures ran ==> |cycles| == |old(cycles)| + 1 && cycles[..|old(cycles)|] == old(cycles)
      ensures ran ==> cycles[|old(cycles)|].batch == old(queue) + p.before + p.during
    {
      queue := queue + p.before;
      if queue == [] {
        queue := queue + p.during + p.late;
        return false;
      }
      var batch := TakeBatch(p);
      RunCycle(batch, p);
      return true;
    }

    /** Any run: what was offered is what was consumed, in order, plus what is still queued. */
    method Run(passes: seq<Pass>)
      requires Valid() && queue == [] && cycles == []
      requires forall i :: 0 <= i < |passes| ==> passes[i].overrun >= 0.0 && passes[i].spent >= 0.0
      modifies this
      ensures Valid()
      ensures queue == Waiting(passes) && Batches(cycles) == Shared(passes)
      ensures Offered(passes) == Consumed(cycles) + queue
      ensures results == Emitted(cycles)
    {
      for n := 0 to |passes|
        invariant Valid()
        invariant queue == Waiting(passes[..n]) && Batches(cycles) == Shared(passes[..n])
        invariant Offered(passes[..n]) == Consumed(cycles) + queue
      {
        ghost var past, held := cycles, queue;
        var ran := RunPass(passes[n]);
        PassConserves(passes, n, past, held, cycles, queue, ran);
        PassShares(passes, n, past, held, cycles, ran);
      }
      assert passes[..|passes|] == passes;
    }
  }

  lemma ResultsStep(batch: seq<Job>, n: nat, outcome: Outcome)
    requires n < |batch|
    ensures ResultsOf(batch[..n + 1], outcome) == ResultsOf(batch[..n], outcome) + [ResultOf(batch[n], outcome)]
  {
    assert batch[..n + 1][..n] == batch[..n];
  }

  lemma EmittedStep(cycles: seq<Cycle>, c: Cycle)
    ensures Emitted(cycles + [c]) == Emitted(cycles) + ResultsOf(c.batch, c.outcome)
  {
    assert (cycles + [c])[..|cycles|] == cycles;
  }

  lemma ConsumedStep(past: seq<Cycle>, cycles: seq<Cycle>)
    requires |cycles| == |past| + 1 && cycles[..|past|] == past
    ensures Consumed(cycles) == Consumed(past) + cycles[|past|].batch
  {
  }

  lemma OfferedStep(passes: seq<Pass>, n: nat)
    requires n < |passes|
    ensures Offered(passes[..n + 1])
         == Offered(passes[..n]) + passes[n].before + passes[n].during + passes[n].late
  {
    assert passes[..n + 1][..n] == passes[..n];
  }

  lemma PassConserves(
      passes: seq<Pass>, n: nat, past: seq<Cycle>, held: seq<Job>, cycles: seq<Cycle>, queue: seq<Job>, ran: bool)
    requires n < |passes| && Offered(passes[..n]) == Consumed(past) + held
    requires ran == (held + passes[n].before != [])
    requires !ran ==> queue == passes[n].during + passes[n].late && cycles == past
    requires ran ==> queue == passes[n].late && |cycles| == |past| + 1 && cycles[..|past|] == past
    requires ran ==> cycles[|past|].batch == held + passes[n].before + passes[n].during
    ensures Offered(passes[..n + 1]) == Consumed(cycles) + queue
  {
    OfferedStep(passes, n);
    var p := passes[n];
    if ran {
      ConsumedStep(past, cycles);
      Regroup(Consumed(past), held, p.before, p.during, p.late);
    } else {
      assert held == [] && p.before == [];
      Regroup(Consumed(past), [], [], p.during, p.late);
      assert [] + p.during == p.during;
      assert Consumed(past) + [] == Consumed(past);
      AppendAssoc(Consumed(past), p.during, p.late);
    }
  }

  lemma WaitingStep(passes: seq<Pass>, n: nat)
    requires n < |passes|
    ensures var queued := Waiting(passes[..n]) + passes[n].before;
      && Waiting(passes[..n + 1]) == (if queued == [] then passes[n].during + passes[n].late else passes[n].late)
      && Shared(passes[..n + 1]) == Shared(passes[..n]) + (if queued == [] then [] else [queued + passes[n].during])
  {
    assert passes[..n + 1][..n] == passes[..n];
  }

  lemma BatchesStep(past: seq<Cycle>, cycles: seq<Cycle>)
    requires |cycles| == |past| + 1 && cycles[..|past|] == past
    ensures Batches(cycles) == Batches(past) + [cycles[|past|].batch]
  {
  }

  lemma PassShares(
      passes: seq<Pass>, n: nat, past: seq<Cycle>, held: seq<Job>, cycles: seq<Cycle>, ran: bool)
    requires n < |passes| && held == Waiting(passes[..n]) && Batches(past) == Shared(passes[..n])
    requires ran == (held + passes[n].before != [])
    requires !ran ==> cycles == past
    requires ran ==> |cycles| == |past| + 1 && cycles[..|past|] == past
    requires ran ==> cycles[|past|].batch == held + passes[n].before + passes[n].during
    ensures Batches(cycles) == Shared(passes[..n + 1])
    ensures Waiting(passes[..n + 1]) == if ran then passes[n].late else passes[n].during + passes[n].late
  {
    WaitingStep(passes, n);
    if ran {
      BatchesStep(past, cycles);
    }
  }

  lemma Regroup(a: seq<Job>, b: seq<Job>, c: seq<Job>, d: seq<Job>, e: seq<Job>)
    ensures (a + b) + c + d + e == (a + (b + c + d)) + e
  {
  }

  // ----- conservation -----

  lemma {:induction false} ResultsAreIndexed(batch: seq<Job>, outcome: Outcome)
    ensures |ResultsOf(batch, outcome)| == |batch|
    ensures forall i :: 0 <= i < |batch| ==> ResultsOf(batch, outcome)[i] == ResultOf(batch[i], outcome)
  {
    if batch != [] {
      ResultsAreIndexed(batch[..|batch| - 1], outcome);
    }
  }

  /** The cycle that consumed the `i`-th job. */
  function CycleOf(cycles: seq<Cycle>, i: nat): (c: nat)
    requires i < |Consumed(cycles)|
    ensures c < |cycles|
  {
    var front := cycles[..|cycles| - 1];
    if i < |Consumed(front)| then CycleOf(front, i) else |cycles| - 1
  }

  /** The `i`-th consumed job stands in its own cycle's batch, after all jobs consumed by earlier cycles. */
  lemma {:induction false} CycleOfIsOwn(cycles: seq<Cycle>, i: nat)
    requires i < |Consumed(cycles)|
    ensures var c := CycleOf(cycles, i);
      var k := i - |Consumed(cycles[..c])|;
      0 <= k < |cycles[c].batch| && Consumed(cycles)[i] == cycles[c].batch[k]
  {
    var front := cycles[..|cycles| - 1];
    if i < |Consumed(front)| {
      CycleOfIsOwn(front, i);
      assert front[..CycleOf(front, i)] == cycles[..CycleOf(front, i)];
    }
  }

  /** The result is the job's own, and says how the cycle ended: success, quota, or the error it raised. */
  predicate Tells(r: JobResult, job: Job, outcome: Outcome) {
    && r.slug == job.slug && r.amountRaw == job.amountRaw && r.nLegs == |job.legs| && r.attempts == job.attempts
    && (r.success <==> outcome.Done?)
    && (r.quotaBlocked <==> outcome.Quota?)
    && (outcome.Done? ==> r.detail == outcome.detail)
    && (outcome.Quota? ==> r.detail == "quota exhausted")
    && (outcome.Failed? ==> r.detail == outcome.message)
  }

  lemma ResultTells(job: Job, outcome: Outcome)
    ensures Tells(ResultOf(job, outcome), job, outcome)
  {
  }

  /** One result per consumed job, in consumption order, each telling how that job's own cycle ended. */
  lemma {:induction false} OneResultPerJob(cycles: seq<Cycle>)
    ensures |Emitted(cycles)| == |Consumed(cycles)|
    ensures forall i :: 0 <= i < |Consumed(cycles)| ==>
      Emitted(cycles)[i] == ResultOf(Consumed(cycles)[i], cycles[CycleOf(cycles, i)].outcome)
      && Tells(Emitted(cycles)[i], Consumed(cycles)[i], cycles[CycleOf(cycles, i)].outcome)
  {
    if cycles != [] {
      var front, last := cycles[..|cycles| - 1], cycles[|cycles| - 1];
      OneResultPerJob(front);
      ResultsAreIndexed(last.batch, last.outcome);
      forall i: nat | i < |Consumed(cycles)|
        ensures Emitted(cycles)[i] == ResultOf(Consumed(cycles)[i], cycles[CycleOf(cycles, i)].outcome)
        ensures Tells(Emitted(cycles)[i], Consumed(cycles)[i], cycles[CycleOf(cycles, i)].outcome)
      {
        ResultTells(Consumed(cycles)[i], cycles[CycleOf(cycles, i)].outcome);
        if i < |Consumed(front)| {
          assert cycles[CycleOf(front, i)] == front[CycleOf(front, i)];
        }
      }
    }
  }
}
