/**
 * Canceling in payloads: one request each, the responses merged. The merged response partitions a
 * batch as the payloads' own responses do, unless one payload's response overrules another's.
 */
module CancelMerge {
  import opened Base
  import opened Cancels

  function Merge(a: CancelResponse, b: CancelResponse): CancelResponse {
    CancelResponse(a.canceled + b.canceled, a.notCanceled + b.notCanceled)
  }

  /** The merged responses of the payloads, first to last. */
  function Merged(responses: seq<CancelResponse>): CancelResponse {
    if responses == [] then CancelResponse([], map[])
    else Merge(Merged(responses[..|responses| - 1]), responses[|responses| - 1])
  }

  /** The `n`-th payload of at most CANCEL_BATCH_SIZE entries. */
  function Payload<T>(items: seq<T>, n: nat): seq<T> {
    items[Min(n * CANCEL_BATCH_SIZE, |items|)..Min((n + 1) * CANCEL_BATCH_SIZE, |items|)]
  }

  type Venue = (nat, seq<string>) -> Option<CancelResponse>

  function PayloadCount(ids: seq<string>): nat {
    (|ids| + CANCEL_BATCH_SIZE - 1) / CANCEL_BATCH_SIZE
  }

  /** The venue's responses to the first `n` payloads, those that came. */
  function Responses(venue: Venue, ids: seq<string>, n: nat): seq<CancelResponse> {
    if n == 0 then []
    else
      var before := Responses(venue, ids, n - 1);
      var response := venue(n - 1, Payload(ids, n - 1));
      if response.Some? then before + [response.value] else before
  }

  /** Each of the first `n` requests succeeds. */
  predicate Reachable(venue: Venue, ids: seq<string>, n: nat) {
    n == 0 || (Reachable(venue, ids, n - 1) && venue(n - 1, Payload(ids, n - 1)).Some?)
  }

  lemma {:induction false} ReachableLess(venue: Venue, ids: seq<string>, n: nat, m: nat)
    requires n <= m && Reachable(venue, ids, m)
    ensures Reachable(venue, ids, n)
  {
    if n < m {
      ReachableLess(venue, ids, n, m - 1);
    }
  }

  /** The first `n` requests have succeeded, and this is their merged response. */
  predicate Got(venue: Venue, ids: seq<string>, n: nat, merged: CancelResponse) {
    Reachable(venue, ids, n) && merged == Merged(Responses(venue, ids, n))
  }

  lemma GotNext(venue: Venue, ids: seq<string>, n: nat, merged: CancelResponse, r: CancelResponse)
    requires Got(venue, ids, n, merged) && venue(n, Payload(ids, n)) == Some(r)
    ensures Got(venue, ids, n + 1, Merge(merged, r))
  {
    var before := Responses(venue, ids, n);
    assert Responses(venue, ids, n + 1) == before + [r];
    assert (before + [r])[..|before|] == before;
  }

  lemma Fails(venue: Venue, ids: seq<string>, n: nat)
    requires n < PayloadCount(ids) && venue(n, Payload(ids, n)).None?
    ensures !Reachable(venue, ids, PayloadCount(ids))
  {
    if Reachable(venue, ids, PayloadCount(ids)) {
      ReachableLess(venue, ids, n + 1, PayloadCount(ids));
      assert false;
    }
  }

  /** The `n`-th payload starts here, and all before it are full. */
  predicate Starts(ids: seq<string>, n: nat, start: nat) {
    start == n * CANCEL_BATCH_SIZE && (n == 0 || start - CANCEL_BATCH_SIZE < |ids|)
  }

  lemma PayloadAt(ids: seq<string>, n: nat, start: nat)
    requires Starts(ids, n, start)
    ensures start < |ids| ==>
      && n < PayloadCount(ids) && Starts(ids, n + 1, start + CANCEL_BATCH_SIZE)
      && Payload(ids, n) == ids[start..Min(start + CANCEL_BATCH_SIZE, |ids|)]
    ensures start >= |ids| ==> n == PayloadCount(ids)
  {
  }

  /** One request per payload, in order, the responses merged; any failed request fails the whole. */
  method CancelInBatches(ids: seq<string>, venue: Venue) returns (r: Option<CancelResponse>)
    ensures r.Some? <==> Reachable(venue, ids, PayloadCount(ids))
    ensures r.Some? ==> r.value == Merged(Responses(venue, ids, PayloadCount(ids)))
  {
    var merged := CancelResponse([], map[]);
    var start, n: nat := 0, 0;
    while start < |ids|
      invariant Starts(ids, n, start) && Got(venue, ids, n, merged)
      decreases |ids| - start
    {
      PayloadAt(ids, n, start);
      var response := venue(n, ids[start..Min(start + CANCEL_BATCH_SIZE, |ids|)]);
      if response.None? {
        Fails(venue, ids, n);
        return None;
      }
      GotNext(venue, ids, n, merged, response.value);
      merged := Merge(merged, response.value);
      n := n + 1;
      start := start + CANCEL_BATCH_SIZE;
    }
    PayloadAt(ids, n, start);
    return Some(merged);
  }

  /** The response speaks of requested ids only. */
  ghost predicate Answers(r: CancelResponse, ids: seq<string>) {
    && (forall id :: id in r.canceled ==> id in ids)
    && (forall id :: id in r.notCanceled ==> id in ids)
  }

  /** Every response speaks of its own payload only. */
  ghost predicate AllAnswer<T>(batch: seq<T>, responses: seq<CancelResponse>, getId: T -> string) {
    forall n :: 0 <= n < |responses| ==> Answers(responses[n], Ids(Payload(batch, n), getId))
  }

  /** Some response lists the id as canceled. */
  predicate Canceled(responses: seq<CancelResponse>, id: string) {
    exists n :: 0 <= n < |responses| && id in responses[n].canceled
  }

  /** One past the last response that gives a reason for the id, 0 when none does. */
  function LastReason(responses: seq<CancelResponse>, id: string): (n: nat)
    ensures n <= |responses| && (n > 0 ==> id in responses[n - 1].notCanceled)
    ensures forall m :: n <= m < |responses| ==> id !in responses[m].notCanceled
  {
    if responses == [] then 0
    else if id in responses[|responses| - 1].notCanceled then |responses|
    else LastReason(responses[..|responses| - 1], id)
  }

  lemma CanceledStep(responses: seq<CancelResponse>, id: string)
    requires responses != []
    ensures Canceled(responses, id)
       <==> Canceled(responses[..|responses| - 1], id) || id in responses[|responses| - 1].canceled
  {
    var front := responses[..|responses| - 1];
    if Canceled(front, id) {
      var n :| 0 <= n < |front| && id in front[n].canceled;
      assert id in responses[n].canceled;
    }
    if Canceled(responses, id) {
      var n :| 0 <= n < |responses| && id in responses[n].canceled;
      assert n < |front| ==> id in front[n].canceled;
    }
  }

  lemma {:induction false} MergedLists(responses: seq<CancelResponse>, id: string)
    ensures id in Merged(responses).canceled <==> Canceled(responses, id)
    ensures id in Merged(responses).notCanceled <==> LastReason(responses, id) > 0
    ensures LastReason(responses, id) > 0 ==>
      Merged(responses).notCanceled[id] == responses[LastReason(responses, id) - 1].notCanceled[id]
  {
    if responses != [] {
      var front := responses[..|responses| - 1];
      MergedLists(front, id);
      CanceledStep(responses, id);
    }
  }

  /** The last reason given for the id is a terminal one. */
  predicate EndsTerminal(responses: seq<CancelResponse>, id: string) {
    var n := LastReason(responses, id);
    n > 0 && ReasonIsTerminal(responses[n - 1].notCanceled[id])
  }

  /** The merged verdict: canceled by some response, or given a terminal reason by the last one that gives any. */
  lemma MergedVerdict(responses: seq<CancelResponse>, id: string)
    ensures Gone(Merged(responses), id) <==> Canceled(responses, id) || EndsTerminal(responses, id)
  {
    MergedLists(responses, id);
  }

  /**
   * Other payloads' responses change the verdict of the `c`-th one on an id: it confirmed the id, but
   * no response cancels it and the last reason given is not terminal; or it did not, and some other
   * response cancels the id or ends with a terminal reason for it.
   */
  predicate Overruled(responses: seq<CancelResponse>, c: nat, id: string)
    requires c < |responses|
  {
    Gone(responses[c], id) != (Canceled(responses, id) || EndsTerminal(responses, id))
  }

  lemma VerdictIff(responses: seq<CancelResponse>, c: nat, id: string)
    requires c < |responses|
    ensures (Gone(Merged(responses), id) <==> Gone(responses[c], id)) <==> !Overruled(responses, c, id)
  {
    MergedVerdict(responses, id);
  }

  ghost predicate DistinctIds<T>(batch: seq<T>, getId: T -> string) {
    forall i, j :: 0 <= i < j < |batch| ==> getId(batch[i]) != getId(batch[j])
  }

  function Ids<T>(batch: seq<T>, getId: T -> string): (ids: seq<string>)
    ensures |ids| == |batch| && forall i :: 0 <= i < |ids| ==> ids[i] == getId(batch[i])
  {
    if batch == [] then [] else [getId(batch[0])] + Ids(batch[1..], getId)
  }

  /** The chunk-by-chunk partition: each payload by its own response. */
  function KeepByPayload<T>(batch: seq<T>, responses: seq<CancelResponse>, getId: T -> string, wanted: bool, n: nat)
    : seq<T>
    requires n <= |responses|
  {
    if n == 0 then []
    else KeepByPayload(batch, responses, getId, wanted, n - 1)
         + Keep(Payload(batch, n - 1), Some(responses[n - 1]), getId, wanted)
  }

  lemma {:induction false} KeepSameVerdicts<T>(
      batch: seq<T>, r: Option<CancelResponse>, s: Option<CancelResponse>, getId: T -> string, wanted: bool)
    requires forall i :: 0 <= i < |batch| ==> Confirmed(r, getId(batch[i])) == Confirmed(s, getId(batch[i]))
    ensures Keep(batch, r, getId, wanted) == Keep(batch, s, getId, wanted)
  {
    if batch != [] {
      KeepSameVerdicts(batch[..|batch| - 1], r, s, getId, wanted);
    }
  }

  lemma {:induction false} KeepConcat<T>(
      a: seq<T>, b: seq<T>, r: Option<CancelResponse>, getId: T -> string, wanted: bool)
    ensures Keep(a + b, r, getId, wanted) == Keep(a, r, getId, wanted) + Keep(b, r, getId, wanted)
  {
    if b == [] {
      assert a + b == a;
    } else {
      assert (a + b)[..|a + b| - 1] == a + b[..|b| - 1];
      KeepConcat(a, b[..|b| - 1], r, getId, wanted);
    }
  }

  lemma PayloadIndex<T>(items: seq<T>, n: nat, i: nat)
    requires i < |Payload(items, n)|
    ensures n * CANCEL_BATCH_SIZE + i < |items|
    ensures Payload(items, n)[i] == items[n * CANCEL_BATCH_SIZE + i] && i < CANCEL_BATCH_SIZE
  {
  }

  /** An id of one payload is asked for in no other. */
  lemma PayloadsDisjoint<T>(batch: seq<T>, getId: T -> string, c: nat, i: nat, n: nat)
    requires DistinctIds(batch, getId) && i < |Payload(batch, c)| && n != c
    ensures getId(Payload(batch, c)[i]) !in Ids(Payload(batch, n), getId)
  {
    PayloadIndex(batch, c, i);
    var chunk := Payload(batch, n);
    forall j: nat | j < |chunk| ensures getId(chunk[j]) != getId(Payload(batch, c)[i]) {
      PayloadIndex(batch, n, j);
      DifferentPayloads(c, i, n, j);
    }
  }

  lemma DifferentPayloads(c: nat, i: nat, n: nat, j: nat)
    requires c != n && i < CANCEL_BATCH_SIZE && j < CANCEL_BATCH_SIZE
    ensures c * CANCEL_BATCH_SIZE + i != n * CANCEL_BATCH_SIZE + j
  {
  }

  /** The entries of the first `n` payloads. */
  function Sent<T>(items: seq<T>, n: nat): seq<T> {
    items[..Min(n * CANCEL_BATCH_SIZE, |items|)]
  }

  lemma PayloadsJoin<T>(items: seq<T>, n: nat)
    ensures Sent(items, n + 1) == Sent(items, n) + Payload(items, n)
  {
  }

  /** Every id is asked for once, in order, and no request names more than 1000 of them or none. */
  lemma PayloadsCover(ids: seq<string>, n: nat)
    ensures Sent(ids, PayloadCount(ids)) == ids
    ensures n < PayloadCount(ids) ==>
      0 < |Payload(ids, n)| <= 1000 && Sent(ids, n + 1) == Sent(ids, n) + Payload(ids, n)
    ensures n + 1 < PayloadCount(ids) ==> |Payload(ids, n)| == 1000
  {
    var count := PayloadCount(ids);
    assert count * CANCEL_BATCH_SIZE >= |ids| && (count > 0 ==> (count - 1) * CANCEL_BATCH_SIZE < |ids|);
    if n < count {
      assert n * CANCEL_BATCH_SIZE <= (count - 1) * CANCEL_BATCH_SIZE;
      PayloadsJoin(ids, n);
    }
    if n + 1 < count {
      assert (n + 1) * CANCEL_BATCH_SIZE <= (count - 1) * CANCEL_BATCH_SIZE;
    }
  }

  /** No item's own verdict is changed by another payload's response. */
  ghost predicate NoneOverruled<T>(batch: seq<T>, responses: seq<CancelResponse>, getId: T -> string) {
    forall c: nat, i: nat :: c < |responses| && i < |Payload(batch, c)| ==>
      !Overruled(responses, c, getId(Payload(batch, c)[i]))
  }

  /** A payload partitioned by the merged response is that payload partitioned by its own. */
  lemma PayloadPartition<T>(
      batch: seq<T>, responses: seq<CancelResponse>, getId: T -> string, wanted: bool, n: nat)
    requires n < |responses| && NoneOverruled(batch, responses, getId)
    ensures Keep(Payload(batch, n), Some(Merged(responses)), getId, wanted)
         == Keep(Payload(batch, n), Some(responses[n]), getId, wanted)
  {
    var chunk := Payload(batch, n);
    var merged := Some(Merged(responses));
    forall i: nat | i < |chunk|
      ensures Confirmed(merged, getId(chunk[i])) == Confirmed(Some(responses[n]), getId(chunk[i]))
    {
      VerdictIff(responses, n, getId(chunk[i]));
    }
    KeepSameVerdicts(chunk, merged, Some(responses[n]), getId, wanted);
  }

  /** `r` partitions the `n`-th payload as its own response does. */
  ghost predicate SamePartition<T>(
    batch: seq<T>, responses: seq<CancelResponse>, r: Option<CancelResponse>, getId: T -> string, wanted: bool, n: nat)
    requires n < |responses|
  {
    Keep(Payload(batch, n), r, getId, wanted) == Keep(Payload(batch, n), Some(responses[n]), getId, wanted)
  }

  lemma SentStep<T>(items: seq<T>, r: Option<CancelResponse>, getId: T -> string, wanted: bool, n: nat)
    ensures Keep(Sent(items, n + 1), r, getId, wanted)
         == Keep(Sent(items, n), r, getId, wanted) + Keep(Payload(items, n), r, getId, wanted)
  {
    PayloadsJoin(items, n);
    KeepConcat(Sent(items, n), Payload(items, n), r, getId, wanted);
  }

  lemma SentLater<T>(
      batch: seq<T>, responses: seq<CancelResponse>, r: Option<CancelResponse>, getId: T -> string, wanted: bool,
      n: nat)
    requires n < |responses| && SamePartition(batch, responses, r, getId, wanted, n)
    requires Keep(Sent(batch, n), r, getId, wanted) == KeepByPayload(batch, responses, getId, wanted, n)
    ensures Keep(Sent(batch, n + 1), r, getId, wanted) == KeepByPayload(batch, responses, getId, wanted, n + 1)
  {
    SentStep(batch, r, getId, wanted, n);
  }

  lemma NothingSent<T>(items: seq<T>, r: Option<CancelResponse>, getId: T -> string, wanted: bool)
    ensures Keep(Sent(items, 0), r, getId, wanted) == []
  {
    assert Sent(items, 0) == [];
  }

  lemma {:induction false} SentPartition<T>(
      batch: seq<T>, responses: seq<CancelResponse>, r: Option<CancelResponse>, getId: T -> string, wanted: bool,
      n: nat)
    requires n <= |responses|
    requires forall k: nat :: k < n ==> SamePartition(batch, responses, r, getId, wanted, k)
    ensures Keep(Sent(batch, n), r, getId, wanted) == KeepByPayload(batch, responses, getId, wanted, n)
    decreases n
  {
    if n == 0 {
      NothingSent(batch, r, getId, wanted);
    } else {
      SentPartition(batch, responses, r, getId, wanted, n - 1);
      SentLater(batch, responses, r, getId, wanted, n - 1);
    }
  }

  /** Partitioning by the merged response is partitioning payload by payload, on both sides and in order. */
  ghost predicate SplitsAlike<T>(batch: seq<T>, responses: seq<CancelResponse>, getId: T -> string) {
    forall wanted ::
      Keep(batch, Some(Merged(responses)), getId, wanted)
      == KeepByPayload(batch, responses, getId, wanted, |responses|)
  }

  lemma UnchangedSplitsAlike<T>(batch: seq<T>, responses: seq<CancelResponse>, getId: T -> string)
    requires NoneOverruled(batch, responses, getId) && |batch| <= |responses| * CANCEL_BATCH_SIZE
    ensures SplitsAlike(batch, responses, getId)
  {
    assert Sent(batch, |responses|) == batch;
    forall wanted: bool
      ensures Keep(batch, Some(Merged(responses)), getId, wanted)
           == KeepByPayload(batch, responses, getId, wanted, |responses|)
    {
      forall k: nat | k < |responses|
        ensures SamePartition(batch, responses, Some(Merged(responses)), getId, wanted, k)
      {
        PayloadPartition(batch, responses, getId, wanted, k);
      }
      SentPartition(batch, responses, Some(Merged(responses)), getId, wanted, |responses|);
    }
  }

  lemma KeptStep<T>(
      batch: seq<T>, responses: seq<CancelResponse>, getId: T -> string, wanted: bool, n: nat, x: T)
    requires n < |responses|
    ensures x in KeepByPayload(batch, responses, getId, wanted, n + 1) <==>
      x in KeepByPayload(batch, responses, getId, wanted, n)
      || x in Keep(Payload(batch, n), Some(responses[n]), getId, wanted)
  {
    InConcat(KeepByPayload(batch, responses, getId, wanted, n),
             Keep(Payload(batch, n), Some(responses[n]), getId, wanted), x);
  }

  /** The item stands in the `c`-th payload and no other. */
  ghost predicate OnlyIn<T>(batch: seq<T>, payloads: nat, c: nat, x: T) {
    forall m: nat :: m < payloads ==> (x in Payload(batch, m) <==> m == c)
  }

  lemma StandsOnce<T>(batch: seq<T>, getId: T -> string, payloads: nat, c: nat, i: nat, x: T)
    requires DistinctIds(batch, getId) && i < |Payload(batch, c)| && x == Payload(batch, c)[i]
    ensures OnlyIn(batch, payloads, c, x)
  {
    forall m: nat | m < payloads && m != c ensures x !in Payload(batch, m) {
      PayloadsDisjoint(batch, getId, c, i, m);
      NotAmong(Payload(batch, m), getId, x);
    }
  }

  lemma KeptOnce<T>(
      batch: seq<T>, responses: seq<CancelResponse>, getId: T -> string, wanted: bool, n: nat, c: nat, x: T)
    requires n < |responses| && c < |responses| && OnlyIn(batch, |responses|, c, x)
    ensures x in Keep(Payload(batch, n), Some(responses[n]), getId, wanted) <==>
      n == c && Confirmed(Some(responses[c]), getId(x)) == wanted
  {
    KeptHasVerdict(Payload(batch, n), Some(responses[n]), getId, wanted, x);
  }

  /** One payload more keeps an item only when it is the item's own. */
  lemma KeptWith<T>(
      batch: seq<T>, responses: seq<CancelResponse>, getId: T -> string, wanted: bool, m: nat, c: nat, x: T,
      made: bool)
    requires m < |responses| && c < |responses| && OnlyIn(batch, |responses|, c, x)
    requires made <==> Confirmed(Some(responses[c]), getId(x)) == wanted
    ensures x in KeepByPayload(batch, responses, getId, wanted, m + 1) <==>
      x in KeepByPayload(batch, responses, getId, wanted, m) || (m == c && made)
  {
    KeptStep(batch, responses, getId, wanted, m, x);
    KeptOnce(batch, responses, getId, wanted, m, c, x);
  }

  /** The first `n` payloads keep an item exactly when its own payload is among them and does. */
  lemma {:induction false} KeptByPayload<T>(
      batch: seq<T>, responses: seq<CancelResponse>, getId: T -> string, wanted: bool, n: nat, c: nat, x: T,
      made: bool)
    requires n <= |responses| && c < |responses| && OnlyIn(batch, |responses|, c, x)
    requires made <==> Confirmed(Some(responses[c]), getId(x)) == wanted
    ensures x in KeepByPayload(batch, responses, getId, wanted, n) <==> c < n && made
    decreases n
  {
    if n > 0 {
      KeptByPayload(batch, responses, getId, wanted, n - 1, c, x, made);
      KeptWith(batch, responses, getId, wanted, n - 1, c, x, made);
    }
  }

  lemma InConcat<T>(a: seq<T>, b: seq<T>, x: T)
    ensures x in a + b <==> x in a || x in b
  {
  }

  lemma NotAmong<T>(batch: seq<T>, getId: T -> string, x: T)
    requires getId(x) !in Ids(batch, getId)
    ensures x !in batch
  {
    forall i | 0 <= i < |batch| ensures batch[i] != x {
      assert Ids(batch, getId)[i] == getId(batch[i]);
    }
  }

  lemma AlikeIsUnchanged<T>(batch: seq<T>, responses: seq<CancelResponse>, getId: T -> string, c: nat, i: nat)
    requires DistinctIds(batch, getId) && SplitsAlike(batch, responses, getId)
    requires c < |responses| && i < |Payload(batch, c)|
    ensures !Overruled(responses, c, getId(Payload(batch, c)[i]))
  {
    var x := Payload(batch, c)[i];
    PayloadIndex(batch, c, i);
    assert x in batch;
    KeptHasVerdict(batch, Some(Merged(responses)), getId, true, x);
    StandsOnce(batch, getId, |responses|, c, i, x);
    KeptByPayload(batch, responses, getId, true, |responses|, c, x, Confirmed(Some(responses[c]), getId(x)));
    VerdictIff(responses, c, getId(x));
  }

  /**
   * With distinct ids, partitioning the merged response is partitioning payload by payload exactly
   * when no item's own verdict is changed by another payload's response.
   */
  lemma MergedPartitionIff<T>(batch: seq<T>, responses: seq<CancelResponse>, getId: T -> string)
    requires DistinctIds(batch, getId) && |batch| <= |responses| * CANCEL_BATCH_SIZE
    ensures SplitsAlike(batch, responses, getId) <==> NoneOverruled(batch, responses, getId)
  {
    if NoneOverruled(batch, responses, getId) {
      UnchangedSplitsAlike(batch, responses, getId);
    }
    if SplitsAlike(batch, responses, getId) {
      forall c: nat, i: nat | c < |responses| && i < |Payload(batch, c)|
        ensures !Overruled(responses, c, getId(Payload(batch, c)[i]))
      {
        AlikeIsUnchanged(batch, responses, getId, c, i);
      }
    }
  }

  // ----- a batch that splits differently -----

  /** Ids of lengths 0 to `n - 1`. */
  function Names(n: nat): (names: seq<string>)
    ensures |names| == n && forall i :: 0 <= i < n ==> |names[i]| == i
  {
    if n == 0 then [] else Names(n - 1) + [Repeated('x', n - 1)]
  }

  function Repeated(c: char, n: nat): (s: string)
    ensures |s| == n
  {
    if n == 0 then [] else [c] + Repeated(c, n - 1)
  }

  function Itself(): string -> string {
    id => id
  }

  /** A first payload answered with silence, and a second that cancels the first one's first id. */
  function ForeignCancel(id: string): seq<CancelResponse> {
    [CancelResponse([], map[]), CancelResponse([id], map[])]
  }

  lemma ForeignCancelOverrules(id: string)
    ensures Overruled(ForeignCancel(id), 0, id)
  {
    assert id in ForeignCancel(id)[1].canceled;
  }

  /** Any batch of two payloads under such answers is partitioned otherwise than payload by payload. */
  lemma ForeignCancelSplits<T>(batch: seq<T>, getId: T -> string)
    requires DistinctIds(batch, getId) && CANCEL_BATCH_SIZE < |batch| <= 2 * CANCEL_BATCH_SIZE
    ensures !SplitsAlike(batch, ForeignCancel(getId(batch[0])), getId)
  {
    var responses := ForeignCancel(getId(batch[0]));
    ForeignCancelOverrules(getId(batch[0]));
    PayloadIndex(batch, 0, 0);
    assert Payload(batch, 0)[0] == batch[0];
    if SplitsAlike(batch, responses, getId) {
      AlikeIsUnchanged(batch, responses, getId, 0, 0);
    }
  }

  /** One more id than fits a payload, all distinct. */
  lemma OneTooManySplits(n: nat)
    requires n == CANCEL_BATCH_SIZE + 1
    ensures DistinctIds(Names(n), Itself()) && !SplitsAlike(Names(n), ForeignCancel(Names(n)[0]), Itself())
  {
    var batch := Names(n);
    forall i, j | 0 <= i < j < |batch| ensures Itself()(batch[i]) != Itself()(batch[j]) {
      assert |batch[i]| != |batch[j]|;
    }
    ForeignCancelSplits(batch, Itself());
  }

  /** When one response alone speaks of an id, it is not overruled. */
  lemma AloneStands(responses: seq<CancelResponse>, c: nat, id: string)
    requires c < |responses|
    requires forall n: nat :: n < |responses| && n != c ==>
      id !in responses[n].canceled && id !in responses[n].notCanceled
    ensures !Overruled(responses, c, id)
  {
    var n := LastReason(responses, id);
    assert Canceled(responses, id) <==> id in responses[c].canceled;
    assert n > 0 ==> n == c + 1;
    assert id in responses[c].notCanceled ==> n == c + 1;
  }

  lemma OwnAnswerStands<T>(batch: seq<T>, responses: seq<CancelResponse>, getId: T -> string, c: nat, i: nat)
    requires DistinctIds(batch, getId) && AllAnswer(batch, responses, getId)
    requires c < |responses| && i < |Payload(batch, c)|
    ensures !Overruled(responses, c, getId(Payload(batch, c)[i]))
  {
    var id := getId(Payload(batch, c)[i]);
    forall n: nat | n < |responses| && n != c
      ensures id !in responses[n].canceled && id !in responses[n].notCanceled
    {
      PayloadsDisjoint(batch, getId, c, i, n);
      assert Answers(responses[n], Ids(Payload(batch, n), getId));
    }
    AloneStands(responses, c, id);
  }

  /** A venue that speaks only of the ids it was asked about overrules nothing. */
  lemma OwnAnswersOverruleNothing<T>(batch: seq<T>, responses: seq<CancelResponse>, getId: T -> string)
    requires DistinctIds(batch, getId) && AllAnswer(batch, responses, getId)
    ensures NoneOverruled(batch, responses, getId)
  {
    forall c: nat, i: nat | c < |responses| && i < |Payload(batch, c)|
      ensures !Overruled(responses, c, getId(Payload(batch, c)[i]))
    {
      OwnAnswerStands(batch, responses, getId, c, i);
    }
  }

  lemma {:induction false} ResponsesCount(venue: Venue, ids: seq<string>, n: nat)
    requires Reachable(venue, ids, n)
    ensures |Responses(venue, ids, n)| == n
  {
    if n > 0 {
      ResponsesCount(venue, ids, n - 1);
    }
  }

  /** A successful batched cancel, partitioned: payload by payload, unless one response overrules another. */
  lemma BatchedCancelPartition<T>(batch: seq<T>, venue: Venue, getId: T -> string)
    requires DistinctIds(batch, getId) && Reachable(venue, Ids(batch, getId), PayloadCount(Ids(batch, getId)))
    ensures var responses := Responses(venue, Ids(batch, getId), PayloadCount(Ids(batch, getId)));
      SplitsAlike(batch, responses, getId) <==> NoneOverruled(batch, responses, getId)
  {
    var ids := Ids(batch, getId);
    ResponsesCount(venue, ids, PayloadCount(ids));
    MergedPartitionIff(batch, Responses(venue, ids, PayloadCount(ids)), getId);
  }
}
