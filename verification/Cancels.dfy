/**
 * Cancel bookkeeping: which items of a flushed batch are confirmed gone, which are retried, and
 * how the responses of several payloads are merged.
 */
module Cancels {
  import opened Base

  const CANCEL_BATCH_SIZE: nat := 1000

  datatype CancelResponse = CancelResponse(canceled: seq<string>, notCanceled: map<string, string>)

  // ----- verdicts -----

  function LowerChar(c: char): char {
    if 'A' <= c <= 'Z' then c - 'A' + 'a' else c
  }

  function Lowered(s: string): string {
    if s == "" then "" else [LowerChar(s[0])] + Lowered(s[1..])
  }

  predicate Contains(s: string, part: string) {
    part <= s || (s != "" && Contains(s[1..], part))
  }

  predicate ContainsAny(s: string, parts: seq<string>) {
    exists k :: 0 <= k < |parts| && Contains(s, parts[k])
  }

  const TERMINAL: seq<string> :=
    ["filled", "not found", "matched", "executed", "complete", "already cancel", "expired"]

  /** The order no longer exists; anything unrecognized is not terminal. */
  predicate ReasonIsTerminal(reason: string) {
    ContainsAny(Lowered(reason), TERMINAL)
  }

  /** Equal up to the case of an ASCII letter; `low` is in lower case. */
  predicate SameLetter(c: char, low: char) {
    c == low || ('a' <= low <= 'z' && c as int + 32 == low as int)
  }

  /** The phrase, given in lower case, stands at position `i` of the text in any case. */
  predicate StandsAt(text: string, i: nat, phrase: string) {
    i + |phrase| <= |text| && forall j :: 0 <= j < |phrase| ==> SameLetter(text[i + j], phrase[j])
  }

  ghost predicate Mentions(text: string, phrase: string) {
    exists i: nat :: StandsAt(text, i, phrase)
  }

  lemma {:induction false} LoweredAt(s: string)
    ensures |Lowered(s)| == |s| && forall i :: 0 <= i < |s| ==> Lowered(s)[i] == LowerChar(s[i])
  {
    if s != "" {
      LoweredAt(s[1..]);
    }
  }

  /** A phrase without capitals. */
  predicate IsLower(phrase: string) {
    forall i :: 0 <= i < |phrase| ==> !('A' <= phrase[i] <= 'Z')
  }

  lemma LowerIsSame(c: char, low: char)
    requires !('A' <= low <= 'Z')
    ensures LowerChar(c) == low <==> SameLetter(c, low)
  {
  }

  lemma PrefixStands(text: string, phrase: string)
    requires IsLower(phrase)
    ensures phrase <= Lowered(text) <==> StandsAt(text, 0, phrase)
  {
    LoweredAt(text);
    forall j | 0 <= j < |phrase| && |phrase| <= |text|
      ensures Lowered(text)[j] == phrase[j] <==> SameLetter(text[j], phrase[j])
    {
      LowerIsSame(text[j], phrase[j]);
    }
    if StandsAt(text, 0, phrase) {
      forall j | 0 <= j < |phrase| ensures Lowered(text)[j] == phrase[j] {
        assert SameLetter(text[0 + j], phrase[j]);
      }
    }
  }

  lemma StandsLater(text: string, i: nat, phrase: string)
    requires text != ""
    ensures StandsAt(text, i + 1, phrase) <==> StandsAt(text[1..], i, phrase)
  {
    if i + 1 + |phrase| <= |text| {
      assert text[i + 1..i + 1 + |phrase|] == text[1..][i..i + |phrase|];
      StandsIsSlice(text, i + 1, phrase);
      StandsIsSlice(text[1..], i, phrase);
    }
  }

  /** The two read alike, up to case. */
  predicate SameText(a: string, low: string) {
    |a| == |low| && forall j :: 0 <= j < |low| ==> SameLetter(a[j], low[j])
  }

  lemma StandsIsSlice(text: string, i: nat, phrase: string)
    requires i + |phrase| <= |text|
    ensures StandsAt(text, i, phrase) <==> SameText(text[i..i + |phrase|], phrase)
  {
    var part := text[i..i + |phrase|];
    assert forall j :: 0 <= j < |phrase| ==> part[j] == text[i + j];
  }

  lemma MentionsSplit(text: string, phrase: string)
    requires text != ""
    ensures Mentions(text, phrase) <==> StandsAt(text, 0, phrase) || Mentions(text[1..], phrase)
  {
    if i: nat :| StandsAt(text, i, phrase) {
      if i > 0 {
        StandsLater(text, i - 1, phrase);
      }
    }
    if i: nat :| StandsAt(text[1..], i, phrase) {
      StandsLater(text, i, phrase);
      assert StandsAt(text, i + 1, phrase);
    }
  }

  lemma ContainsSplit(text: string, phrase: string)
    requires text != ""
    ensures Contains(Lowered(text), phrase) <==> phrase <= Lowered(text) || Contains(Lowered(text[1..]), phrase)
  {
    assert Lowered(text)[1..] == Lowered(text[1..]);
  }

  lemma {:induction false} ContainsIffMentions(text: string, phrase: string)
    requires IsLower(phrase) && phrase != ""
    ensures Contains(Lowered(text), phrase) <==> Mentions(text, phrase)
  {
    PrefixStands(text, phrase);
    if text != "" {
      ContainsIffMentions(text[1..], phrase);
      MentionsSplit(text, phrase);
      ContainsSplit(text, phrase);
    }
  }

  lemma TerminalWordsContained(s: string)
    ensures ContainsAny(s, TERMINAL) <==>
      Contains(s, "filled") || Contains(s, "not found") || Contains(s, "matched") || Contains(s, "executed")
      || Contains(s, "complete") || Contains(s, "already cancel") || Contains(s, "expired")
  {
    assert TERMINAL[0] == "filled" && TERMINAL[1] == "not found" && TERMINAL[2] == "matched";
    assert TERMINAL[3] == "executed" && TERMINAL[4] == "complete" && TERMINAL[5] == "already cancel";
    assert TERMINAL[6] == "expired" && |TERMINAL| == 7;
  }

  /** A reason is terminal exactly when it has one of these phrases in it, in whatever case. */
  lemma TerminalIff(reason: string)
    ensures ReasonIsTerminal(reason) <==>
      Mentions(reason, "filled") || Mentions(reason, "not found") || Mentions(reason, "matched")
      || Mentions(reason, "executed") || Mentions(reason, "complete") || Mentions(reason, "already cancel")
      || Mentions(reason, "expired")
  {
    TerminalWordsContained(Lowered(reason));
    ContainsIffMentions(reason, "filled");
    ContainsIffMentions(reason, "not found");
    ContainsIffMentions(reason, "matched");
    ContainsIffMentions(reason, "executed");
    ContainsIffMentions(reason, "complete");
    ContainsIffMentions(reason, "already cancel");
    ContainsIffMentions(reason, "expired");
  }

  /** The venue canceled the order or gave a terminal reason for it. */
  predicate Gone(r: CancelResponse, id: string) {
    id in r.canceled || (id in r.notCanceled && ReasonIsTerminal(r.notCanceled[id]))
  }

  /** A missing response is a failed request: nothing is confirmed gone. */
  predicate Confirmed(r: Option<CancelResponse>, id: string) {
    r.Some? && Gone(r.value, id)
  }

  // ----- partitioning -----

  /** The items whose verdict is `wanted`, in batch order. */
  function Keep<T>(batch: seq<T>, r: Option<CancelResponse>, getId: T -> string, wanted: bool): seq<T> {
    if batch == [] then []
    else Keep(batch[..|batch| - 1], r, getId, wanted)
         + if Confirmed(r, getId(batch[|batch| - 1])) == wanted then [batch[|batch| - 1]] else []
  }

  method PartitionCancels<T>(batch: seq<T>, result: Option<CancelResponse>, getId: T -> string)
    returns (done: seq<T>, retry: seq<T>)
    ensures done == Keep(batch, result, getId, true)
    ensures retry == Keep(batch, result, getId, false)
    ensures result.None? ==> done == [] && retry == batch
  {
    if result.None? {
      NothingConfirmed(batch, getId);
      return [], batch;
    }
    done, retry := [], [];
    for n := 0 to |batch|
      invariant done == Keep(batch[..n], result, getId, true)
      invariant retry == Keep(batch[..n], result, getId, false)
    {
      var item := batch[n];
      var id := getId(item);
      assert batch[..n + 1][..n] == batch[..n] && batch[..n + 1][n] == item;
      var gone := id in result.value.canceled
        || (id in result.value.notCanceled && ReasonIsTerminal(result.value.notCanceled[id]));
      if gone {
        done := done + [item];
        assert retry + [] == retry;
      } else {
        retry := retry + [item];
        assert done + [] == done;
      }
    }
    assert batch[..|batch|] == batch;
  }

  lemma {:induction false} NothingConfirmed<T>(batch: seq<T>, getId: T -> string)
    ensures Keep(batch, None, getId, true) == [] && Keep(batch, None, getId, false) == batch
  {
    if batch != [] {
      NothingConfirmed(batch[..|batch| - 1], getId);
      assert batch == batch[..|batch| - 1] + [batch[|batch| - 1]];
    }
  }

  /** A side holds exactly the batch's items of its verdict. */
  lemma {:induction false} KeptHasVerdict<T>(
      batch: seq<T>, r: Option<CancelResponse>, getId: T -> string, wanted: bool, x: T)
    ensures x in Keep(batch, r, getId, wanted) <==> x in batch && Confirmed(r, getId(x)) == wanted
  {
    if batch != [] {
      var front, last := batch[..|batch| - 1], batch[|batch| - 1];
      KeptHasVerdict(front, r, getId, wanted, x);
      assert batch == front + [last];
    }
  }

  lemma CountAppended<T>(whole: seq<T>, a: seq<T>, b: seq<T>, x: T)
    requires multiset(a) + multiset(b) == multiset(whole)
    ensures multiset(a + [x]) + multiset(b) == multiset(whole + [x])
    ensures multiset(a) + multiset(b + [x]) == multiset(whole + [x])
  {
    assert multiset(a + [x]) == multiset(a) + multiset{x};
    assert multiset(b + [x]) == multiset(b) + multiset{x};
    assert multiset(whole + [x]) == multiset(whole) + multiset{x};
  }

  lemma KeepLast<T>(front: seq<T>, last: T, r: Option<CancelResponse>, getId: T -> string)
    ensures Confirmed(r, getId(last)) ==>
      && Keep(front + [last], r, getId, true) == Keep(front, r, getId, true) + [last]
      && Keep(front + [last], r, getId, false) == Keep(front, r, getId, false)
    ensures !Confirmed(r, getId(last)) ==>
      && Keep(front + [last], r, getId, true) == Keep(front, r, getId, true)
      && Keep(front + [last], r, getId, false) == Keep(front, r, getId, false) + [last]
  {
    assert (front + [last])[..|front|] == front;
  }

  /** Every item is kept on exactly one side. */
  lemma {:induction false} NothingLost<T>(batch: seq<T>, r: Option<CancelResponse>, getId: T -> string)
    ensures multiset(Keep(batch, r, getId, true)) + multiset(Keep(batch, r, getId, false)) == multiset(batch)
    decreases |batch|
  {
    if batch != [] {
      var front, last := batch[..|batch| - 1], batch[|batch| - 1];
      assert batch == front + [last];
      NothingLost(front, r, getId);
      KeepLast(front, last, r, getId);
      CountAppended(front, Keep(front, r, getId, true), Keep(front, r, getId, false), last);
    }
  }

  lemma {:induction false} KeepIsInOrder<T>(batch: seq<T>, r: Option<CancelResponse>, getId: T -> string, wanted: bool)
    ensures InOrder(Keep(batch, r, getId, wanted), batch)
  {
    if batch != [] {
      var front, last := batch[..|batch| - 1], batch[|batch| - 1];
      var kept := Keep(front, r, getId, wanted);
      KeepIsInOrder(front, r, getId, wanted);
      if Confirmed(r, getId(last)) == wanted {
        assert (kept + [last])[..|kept|] == kept;
      } else {
        assert kept + [] == kept;
      }
    }
  }

  // ----- rounds -----

  /** What is still tracked after retrying the unconfirmed items round after round. */
  function Tracked<T>(batch: seq<T>, rounds: seq<Option<CancelResponse>>, getId: T -> string): seq<T> {
    if rounds == [] then batch
    else Keep(Tracked(batch, rounds[..|rounds| - 1], getId), rounds[|rounds| - 1], getId, false)
  }

  /** What has been dropped from tracking over the rounds. */
  function Dropped<T>(batch: seq<T>, rounds: seq<Option<CancelResponse>>, getId: T -> string): seq<T> {
    if rounds == [] then []
    else Dropped(batch, rounds[..|rounds| - 1], getId)
         + Keep(Tracked(batch, rounds[..|rounds| - 1], getId), rounds[|rounds| - 1], getId, true)
  }

  lemma CountMoved<T>(whole: seq<T>, dropped: seq<T>, tracked: seq<T>, done: seq<T>, retry: seq<T>)
    requires multiset(dropped) + multiset(tracked) == multiset(whole)
    requires multiset(done) + multiset(retry) == multiset(tracked)
    ensures multiset(dropped + done) + multiset(retry) == multiset(whole)
  {
    assert multiset(dropped + done) == multiset(dropped) + multiset(done);
  }

  /** No cancel target is lost: over any rounds, dropped and tracked items together are the batch. */
  lemma {:induction false} NoTargetLost<T>(batch: seq<T>, rounds: seq<Option<CancelResponse>>, getId: T -> string)
    ensures multiset(Dropped(batch, rounds, getId)) + multiset(Tracked(batch, rounds, getId)) == multiset(batch)
  {
    if rounds != [] {
      var front, last := rounds[..|rounds| - 1], rounds[|rounds| - 1];
      NoTargetLost(batch, front, getId);
      var tracked := Tracked(batch, front, getId);
      NothingLost(tracked, last, getId);
      CountMoved(batch, Dropped(batch, front, getId), tracked,
                 Keep(tracked, last, getId, true), Keep(tracked, last, getId, false));
    }
  }

  /** Some round confirmed the order gone. */
  ghost predicate EverConfirmed(rounds: seq<Option<CancelResponse>>, id: string) {
    exists n :: 0 <= n < |rounds| && Confirmed(rounds[n], id)
  }

  lemma EverConfirmedStep(rounds: seq<Option<CancelResponse>>, id: string)
    requires rounds != []
    ensures EverConfirmed(rounds, id)
       <==> EverConfirmed(rounds[..|rounds| - 1], id) || Confirmed(rounds[|rounds| - 1], id)
  {
    var front := rounds[..|rounds| - 1];
    if EverConfirmed(front, id) {
      var n :| 0 <= n < |front| && Confirmed(front[n], id);
      assert rounds[n] == front[n];
    }
    if EverConfirmed(rounds, id) {
      var n :| 0 <= n < |rounds| && Confirmed(rounds[n], id);
      assert n < |front| ==> front[n] == rounds[n];
    }
  }

  /** An item leaves tracking after a verdict for its id and only then. */
  lemma {:induction false} DroppedWasConfirmed<T>(
      batch: seq<T>, rounds: seq<Option<CancelResponse>>, getId: T -> string, x: T)
    ensures x in Dropped(batch, rounds, getId) ==> EverConfirmed(rounds, getId(x))
    ensures x in Tracked(batch, rounds, getId) ==> !EverConfirmed(rounds, getId(x))
  {
    if rounds != [] {
      var front, last := rounds[..|rounds| - 1], rounds[|rounds| - 1];
      DroppedWasConfirmed(batch, front, getId, x);
      EverConfirmedStep(rounds, getId(x));
      var tracked := Tracked(batch, front, getId);
      KeptHasVerdict(tracked, last, getId, true, x);
      KeptHasVerdict(tracked, last, getId, false, x);
    }
  }
}
