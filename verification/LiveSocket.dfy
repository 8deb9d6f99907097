/**
 * The liveness loop of a socket: PING on a cadence, drop the connection when no PONG has been
 * read for too long. One Poll is one turn of the loop, with the clock reading and the outcome
 * of the receive supplied by the environment.
 */
module LiveSocket {
  import opened Base

  const PING_INTERVAL: real := 10.0
  const PONG_TIMEOUT: real := 30.0
  const PONG := "PONG"

  /** The outcome of one receive; a text frame carries the time it was read. */
  datatype Recv = TimedOut | Text(message: string, readAt: real) | Binary | ClosedOk | ClosedError

  datatype Poll = Poll(now: real, sendOk: bool, recv: Recv)

  datatype Live = Live(lastPong: real, nextPing: real)

  datatype Verdict = Waiting | Data(text: string) | CleanClose | PongTimeout | PingFailed | ReadFailed

  /** The socket is still usable after this turn. */
  predicate Usable(v: Verdict) {
    v.Waiting? || v.Data?
  }

  /** Whether this turn checks the deadline and pings. */
  predicate IsTick(s: Live, p: Poll) {
    p.now >= s.nextPing
  }

  predicate ReadsPong(s: Live, p: Poll) {
    !IsTick(s, p) && p.recv.Text? && p.recv.message == PONG
  }

  function Turn(s: Live, p: Poll): (Live, Verdict) {
    if IsTick(s, p) then
      if p.now - s.lastPong > PONG_TIMEOUT then (s, PongTimeout)
      else if !p.sendOk then (s, PingFailed)
      else (s.(nextPing := p.now + PING_INTERVAL), Waiting)
    else
      match p.recv
      case TimedOut => (s, Waiting)
      case ClosedOk => (s, CleanClose)
      case ClosedError => (s, ReadFailed)
      case Binary => (s, Waiting)
      case Text(message, readAt) =>
        if message == PONG then (s.(lastPong := readAt), Waiting) else (s, Data(message))
  }

  /** One call: turns until something is returned or raised; Waiting when the turns run out. */
  function CallOf(s: Live, polls: seq<Poll>): (r: (Live, Verdict, nat))
    ensures r.2 <= |polls|
    decreases |polls|
  {
    if polls == [] then (s, Waiting, 0)
    else
      var (s', v) := Turn(s, polls[0]);
      if v.Waiting? then
        var (s2, v2, n) := CallOf(s', polls[1..]);
        (s2, v2, n + 1)
      else (s', v, 1)
  }

  // ----- the same, read off the polls -----

  /** When the ping falls due before the `i`-th poll: ten seconds after the last poll at which it was. */
  function DueAt(first: real, polls: seq<Poll>, i: nat): real
    requires i <= |polls|
  {
    if i == 0 then first
    else if polls[i - 1].now >= DueAt(first, polls, i - 1) then polls[i - 1].now + 10.0
    else DueAt(first, polls, i - 1)
  }

  /** The `i`-th poll comes before the ping is due, and receives. */
  predicate Receives(s: Live, polls: seq<Poll>, i: nat)
    requires i < |polls|
  {
    polls[i].now < DueAt(s.nextPing, polls, i)
  }

  /** When the last PONG was read before the `i`-th poll. */
  function PongAt(s: Live, polls: seq<Poll>, i: nat): real
    requires i <= |polls|
  {
    if i == 0 then s.lastPong
    else if Receives(s, polls, i - 1) && polls[i - 1].recv.Text? && polls[i - 1].recv.message == "PONG"
    then polls[i - 1].recv.readAt
    else PongAt(s, polls, i - 1)
  }

  /**
   * The `i`-th poll ends the call like this: a close, a failed read or a data frame received before
   * the ping is due; at a due ping, a PONG over thirty seconds old, or else a PING that cannot be sent.
   */
  predicate EndsWith(s: Live, polls: seq<Poll>, i: nat, v: Verdict)
    requires i < |polls|
  {
    var p := polls[i];
    match v
    case Waiting => false
    case CleanClose => Receives(s, polls, i) && p.recv.ClosedOk?
    case ReadFailed => Receives(s, polls, i) && p.recv.ClosedError?
    case Data(text) => Receives(s, polls, i) && p.recv.Text? && p.recv.message == text && text != "PONG"
    case PongTimeout => !Receives(s, polls, i) && p.now - PongAt(s, polls, i) > 30.0
    case PingFailed => !Receives(s, polls, i) && p.now - PongAt(s, polls, i) <= 30.0 && !p.sendOk
  }

  /** The `i`-th poll ends the call in no way. */
  ghost predicate GoesOnAt(s: Live, polls: seq<Poll>, i: nat)
    requires i < |polls|
  {
    forall v :: !EndsWith(s, polls, i, v)
  }

  /**
   * What a call did: of the polls it used the last ended it with this verdict and no earlier one
   * ended it; without a verdict all polls are used up. The PONG read last and the next ping are kept.
   */
  ghost predicate CallDone(s: Live, polls: seq<Poll>, s': Live, v: Verdict, used: nat) {
    && used <= |polls|
    && (if v.Waiting? then used == |polls| else used > 0 && EndsWith(s, polls, used - 1, v))
    && (forall i :: 0 <= i < (if v.Waiting? then used else used - 1) ==> GoesOnAt(s, polls, i))
    && s'.lastPong == PongAt(s, polls, used)
    && s'.nextPing == DueAt(s.nextPing, polls, if v.PongTimeout? || v.PingFailed? then used - 1 else used)
  }

  lemma {:induction false} DueLater(s: Live, polls: seq<Poll>, i: nat)
    requires i < |polls|
    ensures DueAt(s.nextPing, polls, i + 1) == DueAt(DueAt(s.nextPing, polls, 1), polls[1..], i)
  {
    if i > 0 {
      DueLater(s, polls, i - 1);
    }
  }

  lemma {:induction false} PongLater(s: Live, polls: seq<Poll>, i: nat, s1: Live)
    requires i < |polls| && s1 == Live(PongAt(s, polls, 1), DueAt(s.nextPing, polls, 1))
    ensures PongAt(s, polls, i + 1) == PongAt(s1, polls[1..], i)
  {
    if i > 0 {
      PongLater(s, polls, i - 1, s1);
      DueLater(s, polls, i - 1);
    }
  }

  lemma EndsLater(s: Live, polls: seq<Poll>, i: nat, v: Verdict, s1: Live)
    requires i + 1 < |polls| && s1 == Live(PongAt(s, polls, 1), DueAt(s.nextPing, polls, 1))
    ensures EndsWith(s, polls, i + 1, v) == EndsWith(s1, polls[1..], i, v)
  {
    DueLater(s, polls, i);
    PongLater(s, polls, i, s1);
  }

  lemma GoesOnLater(s: Live, polls: seq<Poll>, i: nat, s1: Live)
    requires i + 1 < |polls| && s1 == Live(PongAt(s, polls, 1), DueAt(s.nextPing, polls, 1))
    requires GoesOnAt(s1, polls[1..], i)
    ensures GoesOnAt(s, polls, i + 1)
  {
    var j := i + 1;
    forall v ensures !EndsWith(s, polls, j, v) {
      EndsLater(s, polls, i, v, s1);
    }
  }

  /** The turn of the first poll is what the poll says. */
  lemma TurnEnds(s: Live, polls: seq<Poll>)
    requires polls != []
    ensures var (s1, v) := Turn(s, polls[0]);
      && (v.Waiting? ==> GoesOnAt(s, polls, 0)) && (!v.Waiting? ==> EndsWith(s, polls, 0, v))
      && s1.lastPong == PongAt(s, polls, 1)
      && s1.nextPing == DueAt(s.nextPing, polls, if v.PongTimeout? || v.PingFailed? then 0 else 1)
  {
  }

  /** What a call returns, and on which poll, in terms of the polls alone. */
  lemma {:induction false} CallEnds(s: Live, polls: seq<Poll>)
    ensures var (s', v, used) := CallOf(s, polls); CallDone(s, polls, s', v, used)
    decreases |polls|
  {
    if polls != [] {
      var (s1, v1) := Turn(s, polls[0]);
      TurnEnds(s, polls);
      if v1.Waiting? {
        var (s', v, n) := CallOf(s1, polls[1..]);
        CallEnds(s1, polls[1..]);
        CallStepsBack(s, polls, s1, s', v, n);
      }
    }
  }

  lemma CallStepsBack(s: Live, polls: seq<Poll>, s1: Live, s': Live, v: Verdict, n: nat)
    requires polls != [] && s1 == Live(PongAt(s, polls, 1), DueAt(s.nextPing, polls, 1))
    requires GoesOnAt(s, polls, 0) && CallDone(s1, polls[1..], s', v, n)
    ensures CallDone(s, polls, s', v, n + 1)
  {
    PongLater(s, polls, n, s1);
    DueLater(s, polls, n);
    if !v.Waiting? {
      EndsLater(s, polls, n - 1, v, s1);
      DueLater(s, polls, n - 1);
    }
    forall i | 0 <= i < (if v.Waiting? then n + 1 else n) ensures GoesOnAt(s, polls, i) {
      if i > 0 {
        GoesOnLater(s, polls, i - 1, s1);
      }
    }
  }

  class Socket {
    var lastPong: real
    var nextPing: real

    function State(): Live
      reads this
    {
      Live(lastPong, nextPing)
    }

    /** The two fields are set from two readings of the clock. */
    constructor (now: real, later: real)
      ensures State() == Live(now, later + PING_INTERVAL)
    {
      lastPong, nextPing := now, later + PING_INTERVAL;
    }

    method NextText(polls: seq<Poll>) returns (v: Verdict, used: nat)
      modifies this
      ensures CallDone(old(State()), polls, State(), v, used)
      ensures (State(), v, used) == CallOf(old(State()), polls)
    {
      CallEnds(State(), polls);
      used := 0;
      while used < |polls|
        invariant used <= |polls|
        invariant CallOf(old(State()), polls) ==
          var (s, verdict, n) := CallOf(State(), polls[used..]); (s, verdict, n + used)
      {
        var p := polls[used];
        assert polls[used..][0] == p && polls[used..][1..] == polls[used + 1..];
        used := used + 1;
        if p.now >= nextPing {
          if p.now - lastPong > PONG_TIMEOUT {
            return PongTimeout, used;
          }
          if !p.sendOk {
            return PingFailed, used;
          }
          nextPing := p.now + PING_INTERVAL;
          continue;
        }
        match p.recv
        case TimedOut =>
        case ClosedOk => return CleanClose, used;
        case ClosedError => return ReadFailed, used;
        case Binary =>
        case Text(message, readAt) =>
          if message == PONG {
            lastPong := readAt;
          } else {
            return Data(message), used;
          }
      }
      v := Waiting;
    }
  }

  // ----- a whole session: turns across any number of calls -----

  function After(s: Live, polls: seq<Poll>): Live
    decreases |polls|
  {
    if polls == [] then s else After(Turn(s, polls[0]).0, polls[1..])
  }

  /**
   * The caller keeps polling: every turn begins no later than `d` after the ping falls due, reads
   * happen during their turn, time does not run backwards, and the session ends at the first
   * unusable verdict.
   */
  predicate Paced(s: Live, t: real, polls: seq<Poll>, d: real)
    decreases |polls|
  {
    polls == []
    || (var p := polls[0];
        && t <= p.now <= s.nextPing + d
        && (ReadsPong(s, p) ==> p.now <= p.recv.readAt)
        && (!Usable(Turn(s, p).1) ==> polls[1..] == [])
        && Paced(Turn(s, p).0, if ReadsPong(s, p) then p.recv.readAt else p.now, polls[1..], d))
  }

  /** No PONG is read in the session. */
  predicate Silent(s: Live, polls: seq<Poll>)
    decreases |polls|
  {
    polls == [] || (!ReadsPong(s, polls[0]) && Silent(Turn(s, polls[0]).0, polls[1..]))
  }

  /** The next deadline check falls due within one interval of the PONG deadline. */
  predicate Armed(s: Live) {
    s.nextPing <= s.lastPong + PONG_TIMEOUT + PING_INTERVAL
  }

  /** The verdict the session has reached. */
  function EndOf(s: Live, polls: seq<Poll>): Verdict
    decreases |polls|
  {
    if polls == [] then Waiting
    else if |polls| == 1 then Turn(s, polls[0]).1
    else EndOf(Turn(s, polls[0]).0, polls[1..])
  }

  /** No session, silent or not, lets a turn begin later than the bound after the last PONG read. */
  lemma {:induction false} TurnsAreBounded(s: Live, t: real, polls: seq<Poll>, d: real)
    requires Armed(s) && s.lastPong <= t && Paced(s, t, polls, d)
    ensures Armed(After(s, polls))
    ensures forall i :: 0 <= i < |polls| ==>
      polls[i].now <= After(s, polls[..i]).lastPong + PONG_TIMEOUT + PING_INTERVAL + d
    decreases |polls|
  {
    if polls != [] {
      var p := polls[0];
      var s' := Turn(s, p).0;
      var t' := if ReadsPong(s, p) then p.recv.readAt else p.now;
      TurnsAreBounded(s', t', polls[1..], d);
      forall i | 0 <= i < |polls|
        ensures polls[i].now <= After(s, polls[..i]).lastPong + PONG_TIMEOUT + PING_INTERVAL + d
      {
        if i > 0 {
          assert polls[i] == polls[1..][i - 1] && polls[..i][1..] == polls[1..][..i - 1];
        }
      }
    }
  }

  lemma {:induction false} SilentKeepsPong(s: Live, polls: seq<Poll>, i: nat)
    requires Silent(s, polls) && i <= |polls|
    ensures After(s, polls[..i]).lastPong == s.lastPong
    decreases |polls|
  {
    if i > 0 {
      assert polls[..i][0] == polls[0] && polls[..i][1..] == polls[1..][..i - 1];
      SilentKeepsPong(Turn(s, polls[0]).0, polls[1..], i - 1);
    }
  }

  /**
   * Once PONGs stop, the session is dropped in time. A turn that begins at or after the last PONG
   * plus the timeout plus one ping interval raises; no turn begins later than the caller's delay
   * past that; a session still usable has its next deadline check due by then. A drop for silence
   * never comes within the timeout itself.
   */
  lemma SilenceIsDropped(s: Live, t: real, polls: seq<Poll>, d: real)
    requires Armed(s) && s.lastPong <= t && Paced(s, t, polls, d) && Silent(s, polls)
    ensures polls != [] && polls[|polls| - 1].now >= s.lastPong + PONG_TIMEOUT + PING_INTERVAL ==>
      EndOf(s, polls) == PongTimeout
    ensures forall i :: 0 <= i < |polls| ==> polls[i].now <= s.lastPong + PONG_TIMEOUT + PING_INTERVAL + d
    ensures After(s, polls).nextPing <= s.lastPong + PONG_TIMEOUT + PING_INTERVAL
    ensures polls != [] && EndOf(s, polls) == PongTimeout ==>
      polls[|polls| - 1].now > s.lastPong + PONG_TIMEOUT
  {
    TurnsAreBounded(s, t, polls, d);
    forall i | 0 <= i < |polls|
      ensures polls[i].now <= s.lastPong + PONG_TIMEOUT + PING_INTERVAL + d
    {
      SilentKeepsPong(s, polls, i);
    }
    SilentKeepsPong(s, polls, |polls|);
    assert polls[..|polls|] == polls;
    if polls != [] {
      EndIsLastTurn(s, polls);
      SilentKeepsPong(s, polls, |polls| - 1);
      StaysArmed(s, t, polls, |polls| - 1, d);
    }
  }

  lemma {:induction false} StaysArmed(s: Live, t: real, polls: seq<Poll>, i: nat, d: real)
    requires Armed(s) && s.lastPong <= t && Paced(s, t, polls, d) && i <= |polls|
    ensures Armed(After(s, polls[..i]))
    decreases |polls|
  {
    if i > 0 {
      var p := polls[0];
      StaysArmed(Turn(s, p).0, if ReadsPong(s, p) then p.recv.readAt else p.now, polls[1..], i - 1, d);
      assert polls[..i][0] == p && polls[..i][1..] == polls[1..][..i - 1];
    }
  }

  lemma {:induction false} EndIsLastTurn(s: Live, polls: seq<Poll>)
    requires polls != []
    ensures EndOf(s, polls) == Turn(After(s, polls[..|polls| - 1]), polls[|polls| - 1]).1
    decreases |polls|
  {
    if |polls| > 1 {
      EndIsLastTurn(Turn(s, polls[0]).0, polls[1..]);
      assert polls[..|polls| - 1][1..] == polls[1..][..|polls| - 2];
    } else {
      assert polls[..0] == [];
    }
  }

  // ----- sessions are calls -----

  /** A call is the turns it uses: the state they leave and the verdict they reach. */
  lemma {:induction false} CallIsTurns(s: Live, polls: seq<Poll>)
    ensures var (s', v, n) := CallOf(s, polls);
      && s' == After(s, polls[..n]) && v == EndOf(s, polls[..n])
      && (v.Waiting? ==> n == |polls|) && (polls != [] ==> n > 0)
    decreases |polls|
  {
    if polls != [] {
      var (s1, v1) := Turn(s, polls[0]);
      var n := CallOf(s, polls).2;
      assert polls[..n][0] == polls[0];
      if v1.Waiting? {
        CallIsTurns(s1, polls[1..]);
        assert polls[..n][1..] == polls[1..][..n - 1];
        assert |polls[..n]| == 1 ==> polls[1..][..n - 1] == [];
      } else {
        assert polls[..n][1..] == [];
      }
    }
  }

  /** The caller asks again after every data frame, until the turns run out or the socket is unusable. */
  function Served(s: Live, polls: seq<Poll>): (Live, Verdict)
    decreases |polls|
  {
    var (s', v, n) := CallOf(s, polls);
    if n == 0 || n == |polls| || !Usable(v) then (s', v) else Served(s', polls[n..])
  }

  lemma {:induction false} TurnsSplit(s: Live, polls: seq<Poll>, n: nat)
    requires n <= |polls|
    ensures After(s, polls) == After(After(s, polls[..n]), polls[n..])
    ensures n < |polls| ==> EndOf(s, polls) == EndOf(After(s, polls[..n]), polls[n..])
    decreases n
  {
    if n == 0 {
      assert polls[..0] == [] && polls[0..] == polls;
    } else {
      assert polls[..n][0] == polls[0] && polls[..n][1..] == polls[1..][..n - 1] && polls[1..][n - 1..] == polls[n..];
      TurnsSplit(Turn(s, polls[0]).0, polls[1..], n - 1);
    }
  }

  lemma {:induction false} UnusableIsLast(s: Live, t: real, polls: seq<Poll>, n: nat, d: real)
    requires Paced(s, t, polls, d) && 0 < n <= |polls| && !Usable(EndOf(s, polls[..n]))
    ensures n == |polls|
    decreases n
  {
    var p := polls[0];
    assert polls[..n][0] == p && polls[..n][1..] == polls[1..][..n - 1];
    if n == 1 {
      assert |polls[1..]| == 0;
    } else {
      UnusableIsLast(Turn(s, p).0, if ReadsPong(s, p) then p.recv.readAt else p.now, polls[1..], n - 1, d);
    }
  }

  lemma PacedFirst(s: Live, t: real, polls: seq<Poll>, d: real) returns (s1: Live, t1: real)
    requires Paced(s, t, polls, d) && polls != []
    ensures s1 == Turn(s, polls[0]).0 && Paced(s1, t1, polls[1..], d)
  {
    s1 := Turn(s, polls[0]).0;
    t1 := if ReadsPong(s, polls[0]) then polls[0].recv.readAt else polls[0].now;
  }

  lemma AfterFirst(s: Live, polls: seq<Poll>, n: nat)
    requires 0 < n <= |polls|
    ensures After(s, polls[..n]) == After(Turn(s, polls[0]).0, polls[1..][..n - 1])
  {
    assert polls[..n][0] == polls[0] && polls[..n][1..] == polls[1..][..n - 1];
  }

  lemma {:induction false} PacedRest(s: Live, t: real, polls: seq<Poll>, n: nat, d: real) returns (t': real)
    requires Paced(s, t, polls, d) && n <= |polls|
    ensures Paced(After(s, polls[..n]), t', polls[n..], d)
    decreases n
  {
    if n == 0 {
      t' := t;
      NoneTaken(polls);
    } else {
      var s1, t1 := PacedFirst(s, t, polls, d);
      t' := PacedRest(s1, t1, polls[1..], n - 1, d);
      AfterFirst(s, polls, n);
      DropFirst(polls, n);
    }
  }

  /** The session the theorems speak of is what repeated calls compute. */
  lemma {:induction false} SessionIsCalls(s: Live, t: real, polls: seq<Poll>, d: real)
    requires Paced(s, t, polls, d)
    ensures Served(s, polls) == (After(s, polls), EndOf(s, polls))
    decreases |polls|
  {
    var (s', v, n) := CallOf(s, polls);
    CallIsTurns(s, polls);
    if n == |polls| {
      assert polls[..n] == polls;
    } else {
      if !Usable(v) {
        UnusableIsLast(s, t, polls, n, d);
      }
      var t' := PacedRest(s, t, polls, n, d);
      TurnsSplit(s, polls, n);
      SessionIsCalls(s', t', polls[n..], d);
    }
  }

  // ----- no false alarms -----

  /** How many PINGs were sent since the last PONG was read. */
  function Unanswered(s: Live, polls: seq<Poll>, sent: nat): nat
    decreases |polls|
  {
    if polls == [] then sent
    else
      var p := polls[0];
      var sent' :=
        if ReadsPong(s, p) then 0
        else if IsTick(s, p) && Turn(s, p).1.Waiting? then sent + 1
        else sent;
      Unanswered(Turn(s, p).0, polls[1..], sent')
  }

  /** With `sent` unanswered PINGs, the next one falls due within that many paced intervals and the slack. */
  predicate DueIn(s: Live, sent: nat, d: real, slack: real) {
    s.nextPing <= s.lastPong + (sent as real) * (PING_INTERVAL + d) + PING_INTERVAL + slack
  }

  lemma {:induction false} DueKept(s: Live, t: real, polls: seq<Poll>, sent: nat, d: real, slack: real)
    requires d >= 0.0 && slack >= 0.0 && s.lastPong <= t && Paced(s, t, polls, d) && DueIn(s, sent, d, slack)
    requires s.nextPing <= t + PING_INTERVAL + slack
    ensures DueIn(After(s, polls), Unanswered(s, polls, sent), d, slack)
    decreases |polls|
  {
    if polls != [] {
      var p := polls[0];
      var s' := Turn(s, p).0;
      var t' := if ReadsPong(s, p) then p.recv.readAt else p.now;
      var sent' :=
        if ReadsPong(s, p) then 0
        else if IsTick(s, p) && Turn(s, p).1.Waiting? then sent + 1
        else sent;
      OneMoreInterval(sent, PING_INTERVAL + d);
      assert DueIn(s', sent', d, slack);
      DueKept(s', t', polls[1..], sent', d, slack);
    }
  }

  /** So many paced intervals, and the slack, do not exceed the timeout. */
  predicate WithinTimeout(n: nat, d: real, slack: real) {
    (n as real) * (PING_INTERVAL + d) + slack <= PONG_TIMEOUT
  }

  /**
   * A session is dropped for silence only after so many unanswered PINGs that the paced intervals
   * since the last PONG exceed the timeout. `slack` is how much later than the last PONG the first
   * PING was scheduled from: the time between a new socket's two clock readings, 0 afterwards.
   */
  lemma TimeoutNeedsUnansweredPings(
      s: Live, t: real, polls: seq<Poll>, last: Poll, d: real, slack: real, n: nat)
    requires d >= 0.0 && slack >= 0.0 && s.lastPong <= t && s.nextPing <= s.lastPong + PING_INTERVAL + slack
    requires Paced(s, t, polls + [last], d)
    requires Turn(After(s, polls), last).1 == PongTimeout
    ensures !WithinTimeout(Unanswered(s, polls, 0) + 1, d, slack)
    ensures WithinTimeout(n, d, slack) ==> Unanswered(s, polls, 0) >= n
  {
    PacedPrefix(s, t, polls, last, d);
    DueKept(s, t, polls, 0, d, slack);
    Exceeds(Unanswered(s, polls, 0), d, slack, After(s, polls), last.now);
    if WithinTimeout(n, d, slack) {
      AtLeastSent(Unanswered(s, polls, 0), n, d, slack);
    }
  }

  lemma Exceeds(sent: nat, d: real, slack: real, s: Live, now: real)
    requires DueIn(s, sent, d, slack) && now <= s.nextPing + d && now - s.lastPong > PONG_TIMEOUT
    ensures !WithinTimeout(sent + 1, d, slack)
  {
    OneMoreInterval(sent, PING_INTERVAL + d);
  }

  lemma {:induction false} Multiples(m: nat, n: nat, x: real)
    requires m <= n && x >= 0.0
    ensures (m as real) * x <= (n as real) * x
    decreases n
  {
    if m < n {
      Multiples(m, n - 1, x);
      OneMoreInterval(n - 1, x);
    }
  }

  lemma AtLeastSent(sent: nat, n: nat, d: real, slack: real)
    requires d >= 0.0 && WithinTimeout(n, d, slack)
    requires !WithinTimeout(sent + 1, d, slack)
    ensures sent >= n
  {
    if sent < n {
      Multiples(sent + 1, n, PING_INTERVAL + d);
    }
  }

  /** Polled on time, three PINGs go unanswered before a drop; with delays of up to five seconds, two. */
  lemma UnansweredBeforeDrop(s: Live, t: real, polls: seq<Poll>, last: Poll, d: real)
    requires d >= 0.0 && s.lastPong <= t && s.nextPing <= s.lastPong + PING_INTERVAL
    requires Paced(s, t, polls + [last], d)
    requires Turn(After(s, polls), last).1 == PongTimeout
    ensures d == 0.0 ==> Unanswered(s, polls, 0) >= 3
    ensures d <= 5.0 ==> Unanswered(s, polls, 0) >= 2
  {
    TimeoutNeedsUnansweredPings(s, t, polls, last, d, 0.0, 3);
    TimeoutNeedsUnansweredPings(s, t, polls, last, d, 0.0, 2);
    assert d == 0.0 ==> WithinTimeout(3, d, 0.0);
    assert d <= 5.0 ==> WithinTimeout(2, d, 0.0);
  }

  /** With any delay of up to five seconds, a session can be dropped after two unanswered PINGs. */
  lemma DroppedAfterTwo(d: real)
    requires 0.0 < d <= 5.0
    ensures var s, a, b := Live(0.0, PING_INTERVAL),
        Poll(PING_INTERVAL + d, true, TimedOut), Poll(2.0 * (PING_INTERVAL + d), true, TimedOut);
      var last := Poll(3.0 * (PING_INTERVAL + d), true, TimedOut);
      && Paced(s, 0.0, [a, b, last], d) && EndOf(s, [a, b, last]) == PongTimeout
      && Unanswered(s, [a, b], 0) == 2
  {
    var s, a, b := Live(0.0, PING_INTERVAL),
      Poll(PING_INTERVAL + d, true, TimedOut), Poll(2.0 * (PING_INTERVAL + d), true, TimedOut);
    var last := Poll(3.0 * (PING_INTERVAL + d), true, TimedOut);
    var s1 := Live(0.0, a.now + PING_INTERVAL);
    var s2 := Live(0.0, b.now + PING_INTERVAL);
    assert [last][1..] == [] && [b, last][1..] == [last] && [a, b, last][1..] == [b, last];
    assert [b][1..] == [] && [a, b][1..] == [b];
    assert Turn(s, a).0 == s1 && Turn(s, a).1 == Waiting;
    assert Turn(s1, b).0 == s2 && Turn(s1, b).1 == Waiting;
    assert Turn(s2, last).1 == PongTimeout;
    assert Paced(s2, b.now, [last], d);
    assert Paced(s1, a.now, [b, last], d);
    assert Unanswered(s1, [b], 1) == 2;
    assert EndOf(s1, [b, last]) == PongTimeout;
  }

  lemma OneMoreInterval(n: nat, x: real)
    ensures ((n + 1) as real) * x == (n as real) * x + x
  {
  }

  lemma {:induction false} PacedPrefix(s: Live, t: real, polls: seq<Poll>, last: Poll, d: real)
    requires Paced(s, t, polls + [last], d)
    ensures Paced(s, t, polls, d) && last.now <= After(s, polls).nextPing + d
    decreases |polls|
  {
    if polls != [] {
      var p := polls[0];
      assert (polls + [last])[0] == p && (polls + [last])[1..] == polls[1..] + [last];
      PacedPrefix(Turn(s, p).0, if ReadsPong(s, p) then p.recv.readAt else p.now, polls[1..], last, d);
    }
  }
}
