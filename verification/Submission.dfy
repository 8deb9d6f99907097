/**
 * Submitting to the relayer, and what a submission does to the wallet. Requests are numbered in
 * order; their answers are arbitrary but fixed in advance, so that runs can be spoken of.
 */
module Submission {
  import opened Base

  /** A relayer's answer. A busy wallet submits nothing; any other error may hide a batch that landed. */
  datatype Answer = Accepted | WalletBusy | QuotaExhausted(landed: bool) | OtherError(landed: bool)

  predicate Landed(a: Answer) {
    match a
    case Accepted => true
    case WalletBusy => false
    case QuotaExhausted(landed) => landed
    case OtherError(landed) => landed
  }

  /** The request that settles a submission begun at `t`: the first not answered busy, or the last allowed. */
  function LastTry(answers: nat -> Answer, t: nat, retries: int): (end: nat)
    ensures t <= end
    decreases Max(retries, 0)
  {
    if answers(t) == WalletBusy && retries > 0 then LastTry(answers, t + 1, retries - 1) else t
  }

  /** Only busy answers are retried, at most so many times, and a busy one settles only the last. */
  lemma {:induction false} LastTryBounds(answers: nat -> Answer, t: nat, retries: int)
    ensures t <= LastTry(answers, t, retries) <= t + Max(retries, 0)
    ensures forall k :: t <= k < LastTry(answers, t, retries) ==> answers(k) == WalletBusy
    ensures answers(LastTry(answers, t, retries)) == WalletBusy ==>
      LastTry(answers, t, retries) == t + Max(retries, 0)
    decreases Max(retries, 0)
  {
    if answers(t) == WalletBusy && retries > 0 {
      LastTryBounds(answers, t + 1, retries - 1);
    }
  }

  function Copies<B>(batch: B, n: nat): seq<B> {
    if n == 0 then [] else Copies(batch, n - 1) + [batch]
  }

  lemma {:induction false} CopiesJoin<B>(batch: B, m: nat, n: nat)
    ensures Copies(batch, m) + Copies(batch, n) == Copies(batch, m + n)
  {
    if n == 0 {
      assert Copies(batch, m) + [] == Copies(batch, m);
    } else {
      CopiesJoin(batch, m, n - 1);
      AppendAssoc(Copies(batch, m), Copies(batch, n - 1), [batch]);
    }
  }

  /** One batch, submitted at every request from `begun` up to, not including, `done`. */
  datatype Sending<B> = Sending(batch: B, begun: nat, done: nat)

  /** The requests that submit these batches, one batch after the other. */
  function Requests<B>(sent: seq<Sending<B>>): seq<B> {
    if sent == [] then []
    else
      var last := sent[|sent| - 1];
      Requests(sent[..|sent| - 1]) + Copies(last.batch, if last.begun <= last.done then last.done - last.begun else 0)
  }

  /** The sendings take up the requests from `t` to `end`, each begun when the one before it is done. */
  predicate FromTo<B>(sent: seq<Sending<B>>, t: nat, end: nat) {
    if sent == [] then t == end
    else
      var last := sent[|sent| - 1];
      last.begun < last.done == end && FromTo(sent[..|sent| - 1], t, last.begun)
  }

  function BatchesOf<B>(sent: seq<Sending<B>>): (batches: seq<B>)
    ensures |batches| == |sent| && forall i :: 0 <= i < |sent| ==> batches[i] == sent[i].batch
  {
    if sent == [] then [] else BatchesOf(sent[..|sent| - 1]) + [sent[|sent| - 1].batch]
  }

  lemma OneMoreSent<B>(sent: seq<Sending<B>>, next: Sending<B>, t: nat)
    requires FromTo(sent, t, next.begun) && next.begun < next.done
    ensures FromTo(sent + [next], t, next.done)
    ensures Requests(sent + [next]) == Requests(sent) + Copies(next.batch, next.done - next.begun)
    ensures BatchesOf(sent + [next]) == BatchesOf(sent) + [next.batch]
  {
    assert (sent + [next])[..|sent|] == sent;
  }

  /** What a log grows by while these are sent. */
  ghost predicate Logged<B>(before: seq<B>, log: seq<B>, sent: seq<Sending<B>>, t: nat, end: nat) {
    log == before + Requests(sent) && FromTo(sent, t, end)
  }

  lemma NothingLogged<B>(log: seq<B>, t: nat)
    ensures Logged(log, log, [], t, t)
  {
    assert log + [] == log;
  }

  lemma {:induction false} LogsMore<B>(
      before: seq<B>, mid: seq<B>, log: seq<B>, a: seq<Sending<B>>, b: seq<Sending<B>>, t: nat, m: nat, end: nat)
    requires Logged(before, mid, a, t, m) && Logged(mid, log, b, m, end)
    ensures Logged(before, log, a + b, t, end)
    decreases |b|
  {
    if b == [] {
      assert a + b == a && log == mid;
    } else {
      var front, last := b[..|b| - 1], b[|b| - 1];
      var copies := Copies(last.batch, last.done - last.begun);
      LogsMore(before, mid, mid + Requests(front), a, front, t, m, last.begun);
      LogsOneMore(before, mid + Requests(front), a + front, t, last);
      AppendAssoc(mid, Requests(front), copies);
      assert (a + front) + [last] == a + b;
    }
  }

  lemma LogsOneMore<B>(before: seq<B>, log: seq<B>, sent: seq<Sending<B>>, t: nat, next: Sending<B>)
    requires Logged(before, log, sent, t, next.begun) && next.begun < next.done
    ensures Logged(before, log + Copies(next.batch, next.done - next.begun), sent + [next], t, next.done)
  {
    OneMoreSent(sent, next, t);
    AppendAssoc(before, Requests(sent), Copies(next.batch, next.done - next.begun));
  }

  /** The remote side: the wallet's state on chain, the number of requests made, and the batches submitted. */
  class Remote<S, B> {
    var state: S
    var clock: nat
    /** Every batch submitted so far, repeats included. */
    ghost var log: seq<B>
    const answers: nat -> Answer
    const readable: nat -> bool

    constructor (state: S, answers: nat -> Answer, readable: nat -> bool)
      ensures this.state == state && clock == 0 && log == []
      ensures this.answers == answers && this.readable == readable
    {
      this.state, clock, log := state, 0, [];
      this.answers, this.readable := answers, readable;
    }

    /** One balance query; fails when the endpoint does. */
    method Read() returns (ok: bool)
      modifies this`clock
      ensures clock == old(clock) + 1 && ok == readable(old(clock))
    {
      ok := readable(clock);
      clock := clock + 1;
    }

    /** One submission of a batch that turns the state into `landed`; it lands whole or not at all. */
    method Submit(batch: B, landed: S) returns (a: Answer)
      modifies this
      ensures log == old(log) + [batch]
      ensures clock == old(clock) + 1 && a == answers(old(clock))
      ensures state == if Landed(a) then landed else old(state)
    {
      log := log + [batch];
      a := answers(clock);
      clock := clock + 1;
      if Landed(a) {
        state := landed;
      }
    }

    /** Retries while the wallet is busy, which submits nothing, up to `maxRetries` times. */
    method SubmitWithBusyRetry(batch: B, landed: S, maxRetries: int) returns (a: Answer)
      modifies this
      ensures clock == LastTry(answers, old(clock), maxRetries) + 1 && a == answers(clock - 1)
      ensures log == old(log) + Copies(batch, clock - old(clock))
      ensures state == if Landed(a) then landed else old(state)
    {
      var attempt := 0;
      while true
        invariant state == old(state) && clock >= old(clock)
        invariant log == old(log) + Copies(batch, clock - old(clock))
        invariant LastTry(answers, old(clock), maxRetries) == LastTry(answers, clock, maxRetries - attempt)
        decreases maxRetries - attempt
      {
        a := Submit(batch, landed);
        AppendAssoc(old(log), Copies(batch, clock - 1 - old(clock)), [batch]);
        if a == WalletBusy && attempt < maxRetries {
          attempt := attempt + 1;
        } else {
          return;
        }
      }
    }
  }
}
