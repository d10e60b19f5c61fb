/** The client half of the heartbeat protocol: the register/beat loop of the SDK.

    The loop keeps three variables and one field; what it owes its caller is a statement about
    the sequence of calls it makes, and that is what `Run` is proved against.  Times are in
    milliseconds. */
module RegistryClient {
  import opened Arithmetic

  const DEFAULT_HEARTBEAT_INTERVAL := 5_000
  const MIN_ADVERTISED_INTERVAL := 50
  const BEAT_FAILURE_THRESHOLD := 3
  const REGISTER_BACKOFF_INITIAL := 1_000
  const REGISTER_BACKOFF_MAX := 30_000

  datatype Kind = Register | Beat

  /** What the registry answered; a beat's answer may advertise an interval, zero meaning none. */
  datatype Answer = Accepted(advertised: int) | Failed

  /** One call, and how long the loop slept since the call before it. */
  datatype Call = Call(kind: Kind, waited: int, answer: Answer)

  // ----- what is due after a history of calls

  function Init(h: seq<Call>): seq<Call>
    requires h != []
  {
    h[..|h| - 1]
  }

  function Last(h: seq<Call>): Call
    requires h != []
  {
    h[|h| - 1]
  }

  /** The number of failed calls of one kind at the end of the history. */
  function FailedRun(h: seq<Call>, kind: Kind): nat {
    if h == [] || Last(h).kind != kind || Last(h).answer.Accepted? then 0 else 1 + FailedRun(Init(h), kind)
  }

  function Due(h: seq<Call>): Kind {
    if h == [] then Register
    else if Last(h).answer.Accepted? then Beat
    else if Last(h).kind.Register? then Register
    else if FailedRun(h, Beat) == BEAT_FAILURE_THRESHOLD then Register
    else Beat
  }

  function Clamped(advertised: int): int {
    if advertised < MIN_ADVERTISED_INTERVAL then MIN_ADVERTISED_INTERVAL else advertised
  }

  /** The beat period in force: the latest one a beat's answer advertised. */
  function Interval(h: seq<Call>, configured: int): int {
    if h == [] then (if configured > 0 then configured else DEFAULT_HEARTBEAT_INTERVAL)
    else if Last(h).kind.Beat? && Last(h).answer.Accepted? && Last(h).answer.advertised > 0 then
      Clamped(Last(h).answer.advertised)
    else Interval(Init(h), configured)
  }

  function Min(a: int, b: int): int {
    if a <= b then a else b
  }

  /** The wait after the k-th registration failure in a row. */
  function RetryWait(k: nat, initial: int, max: int): int
    requires k > 0
  {
    if k == 1 then initial else Min(initial * Pow2(k - 1), max)
  }

  /** Before a beat the period; before a registration nothing, unless the call before it was a
      registration that failed. */
  function WaitDue(h: seq<Call>, configured: int, initial: int, max: int): int {
    if Due(h).Beat? then Interval(h, configured)
    else if FailedRun(h, Register) == 0 then 0
    else RetryWait(FailedRun(h, Register), initial, max)
  }

  /** Every call of the log was the one due, after the wait due. */
  ghost predicate Follows(log: seq<Call>, configured: int, initial: int, max: int) {
    forall i {:trigger log[i]} :: 0 <= i < |log| ==>
      log[i].kind == Due(log[..i]) && log[i].waited == WaitDue(log[..i], configured, initial, max)
  }

  function NextBackoff(d: int, max: int): int {
    if d * 2 > max then max else d * 2
  }

  /** One more doubling of a capped wait is the next rung of the ladder. */
  lemma NextRung(k: nat, initial: int, max: int)
    requires k > 0 && initial > 0 && max > 0
    ensures NextBackoff(RetryWait(k, initial, max), max) == RetryWait(k + 1, initial, max)
  {
    var p := initial * Pow2(k - 1);
    assert initial * Pow2(k) == 2 * p;
    if k == 1 {
      assert p == initial;
    }
  }

  /** The waits are the doubling ladder cut off at the maximum, exactly when the ladder starts
      below it: the first wait is never capped. */
  lemma LadderIsCapped(initial: int, max: int)
    requires initial > 0 && max > 0
    ensures (forall k: nat :: k > 0 ==> RetryWait(k, initial, max) == Min(initial * Pow2(k - 1), max)) <==> initial <= max
  {
    if initial > max {
      assert Pow2(0) == 1;
      assert RetryWait(1, initial, max) != Min(initial * Pow2(0), max);
    } else {
      forall k: nat | k > 0
        ensures RetryWait(k, initial, max) == Min(initial * Pow2(k - 1), max)
      {
        if k == 1 {
          assert Pow2(0) == 1;
        }
      }
    }
  }

  /** What the loop's variables say about the calls made so far; `slept` is the sleep already taken
      before a registration that is still to come. */
  ghost predicate Tracks(log: seq<Call>, registered: bool, backoff: int, failures: int, slept: int, initial: int, max: int) {
    && (registered <==> Due(log) == Beat)
    && (registered ==> failures == FailedRun(log, Beat) < BEAT_FAILURE_THRESHOLD && backoff == initial && slept == 0)
    && (!registered ==> slept == if FailedRun(log, Register) == 0 then 0 else RetryWait(FailedRun(log, Register), initial, max))
    && (!registered ==> backoff == RetryWait(FailedRun(log, Register) + 1, initial, max))
  }

  lemma Extended(h: seq<Call>, c: Call, configured: int, initial: int, max: int)
    requires Follows(h, configured, initial, max)
    requires c.kind == Due(h) && c.waited == WaitDue(h, configured, initial, max)
    ensures Follows(h + [c], configured, initial, max)
    ensures Init(h + [c]) == h
  {
    var all := h + [c];
    assert Init(all) == h;
    forall i {:trigger all[i]} | 0 <= i < |all|
      ensures all[i].kind == Due(all[..i]) && all[i].waited == WaitDue(all[..i], configured, initial, max)
    {
      if i < |h| {
        assert all[..i] == h[..i];
      } else {
        assert all[..i] == h;
      }
    }
  }

  lemma AfterRegister(h: seq<Call>, a: Answer, failures: int, slept: int, configured: int, initial: int, max: int)
    requires Follows(h, configured, initial, max) && initial > 0 && max > 0
    requires exists backoff :: Tracks(h, false, backoff, failures, slept, initial, max)
    ensures var log := h + [Call(Register, slept, a)];
            && Follows(log, configured, initial, max) && Interval(log, configured) == Interval(h, configured)
            && (a.Accepted? ==> Tracks(log, true, initial, 0, 0, initial, max))
            && (a.Failed? ==>
                  var wait := RetryWait(FailedRun(h, Register) + 1, initial, max);
                  Tracks(log, false, NextBackoff(wait, max), failures, wait, initial, max))
  {
    Extended(h, Call(Register, slept, a), configured, initial, max);
    NextRung(FailedRun(h, Register) + 1, initial, max);
  }

  lemma AfterBeat(h: seq<Call>, a: Answer, failures: int, interval: int, configured: int, initial: int, max: int)
    requires Follows(h, configured, initial, max) && interval == Interval(h, configured)
    requires Tracks(h, true, initial, failures, 0, initial, max)
    ensures var log := h + [Call(Beat, interval, a)];
            && Follows(log, configured, initial, max)
            && Interval(log, configured) == (if a.Accepted? && a.advertised > 0 then Clamped(a.advertised) else interval)
            && (a.Accepted? ==> Tracks(log, true, initial, 0, 0, initial, max))
            && (a.Failed? && failures + 1 < BEAT_FAILURE_THRESHOLD ==> Tracks(log, true, initial, failures + 1, 0, initial, max))
            && (a.Failed? && failures + 1 >= BEAT_FAILURE_THRESHOLD ==> Tracks(log, false, initial, 0, 0, initial, max))
  {
    Extended(h, Call(Beat, interval, a), configured, initial, max);
  }

  lemma FollowsPrefix(log: seq<Call>, n: nat, configured: int, initial: int, max: int)
    requires Follows(log, configured, initial, max) && n <= |log|
    ensures Follows(log[..n], configured, initial, max)
  {
    var h := log[..n];
    forall i {:trigger h[i]} | 0 <= i < n
      ensures h[i].kind == Due(h[..i]) && h[i].waited == WaitDue(h[..i], configured, initial, max)
    {
      assert h[..i] == log[..i] && h[i] == log[i];
    }
  }

  lemma {:induction false} AtMostThree(log: seq<Call>, configured: int, initial: int, max: int)
    requires Follows(log, configured, initial, max)
    ensures FailedRun(log, Beat) <= BEAT_FAILURE_THRESHOLD
  {
    if log != [] {
      var h := Init(log);
      FollowsPrefix(log, |log| - 1, configured, initial, max);
      AtMostThree(h, configured, initial, max);
      assert Last(log).kind == Due(h);
    }
  }

  /** The loop goes back to registering after a beat exactly when that beat was the third failure in
      a row, and a call that was accepted is always followed by a beat. */
  lemma ReregistersAfterThree(log: seq<Call>, i: nat, configured: int, initial: int, max: int)
    requires Follows(log, configured, initial, max) && 0 < i < |log| && log[i - 1].kind == Beat
    ensures log[i].kind == Register <==>
              i >= 3 && forall m :: i - 3 <= m < i ==> log[m].kind == Beat && log[m].answer.Failed?
    ensures log[i - 1].answer.Accepted? ==> log[i].kind == Beat
  {
    var h := log[..i];
    assert log[i].kind == Due(h) && Last(h) == log[i - 1];
    FollowsPrefix(log, i, configured, initial, max);
    AtMostThree(h, configured, initial, max);
    if i >= 3 {
      RunOf(h, 3);
    } else {
      RunWithin(h);
    }
  }

  /** A run of n failed beats ends the history exactly when its last n calls are failed beats. */
  lemma {:induction false} RunOf(h: seq<Call>, n: nat)
    requires n <= |h|
    ensures FailedRun(h, Beat) >= n <==> forall m :: |h| - n <= m < |h| ==> h[m].kind == Beat && h[m].answer.Failed?
  {
    if n > 0 {
      RunOf(Init(h), n - 1);
      assert forall m :: 0 <= m < |h| - 1 ==> Init(h)[m] == h[m];
    }
  }

  lemma {:induction false} RunWithin(h: seq<Call>)
    ensures FailedRun(h, Beat) <= |h|
  {
    if h != [] {
      RunWithin(Init(h));
    }
  }

  class Client {
    var beatInterval: int
    const configured: int
    const initial: int
    const max: int

    constructor (configured: int, initial: int, max: int)
      ensures beatInterval == 0 && this.configured == configured && this.initial == initial && this.max == max
    {
      beatInterval := 0;
      this.configured, this.initial, this.max := configured, initial, max;
    }

    function HeartbeatInterval(): int
      reads this
    {
      if beatInterval > 0 then beatInterval
      else if configured > 0 then configured
      else DEFAULT_HEARTBEAT_INTERVAL
    }

    method Adopt(a: Answer)
      modifies this
      ensures beatInterval == if a.Accepted? && a.advertised > 0 then Clamped(a.advertised) else old(beatInterval)
    {
      if a.Accepted? && a.advertised > 0 {
        var interval := a.advertised;
        if interval < MIN_ADVERTISED_INTERVAL {
          interval := MIN_ADVERTISED_INTERVAL;
        }
        beatInterval := interval;
      }
    }

    /** The loop, until its context is cancelled: `answers` are the registry's answers to the calls
        it gets to make, and the cancellation falls somewhere after the last of them. */
    method Run(answers: seq<Answer>) returns (log: seq<Call>)
      requires beatInterval == 0 && initial > 0 && max > 0
      modifies this
      ensures |log| == |answers| && forall i :: 0 <= i < |log| ==> log[i].answer == answers[i]
      ensures Follows(log, configured, initial, max)
      ensures HeartbeatInterval() == Interval(log, configured)
    {
      log := [];
      var backoff := initial;
      var registered := false;
      var consecutiveBeatFailures := 0;
      var slept := 0;
      while |log| < |answers|
        invariant |log| <= |answers| && forall i :: 0 <= i < |log| ==> log[i].answer == answers[i]
        invariant Follows(log, configured, initial, max)
        invariant HeartbeatInterval() == Interval(log, configured)
        invariant Tracks(log, registered, backoff, consecutiveBeatFailures, slept, initial, max)
        decreases |answers| - |log|
      {
        if !registered {
          var answer := answers[|log|];
          AfterRegister(log, answer, consecutiveBeatFailures, slept, configured, initial, max);
          log := log + [Call(Register, slept, answer)];
          slept := 0;
          if answer.Accepted? {
            registered := true;
            consecutiveBeatFailures := 0;
            backoff := initial;
          } else {
            slept := backoff;
            backoff := NextBackoff(backoff, max);
            continue;
          }
        }
        if |log| == |answers| {
          break;
        }
        var interval := HeartbeatInterval();
        var answer := answers[|log|];
        AfterBeat(log, answer, consecutiveBeatFailures, interval, configured, initial, max);
        log := log + [Call(Beat, interval, answer)];
        Adopt(answer);
        if answer.Accepted? {
          consecutiveBeatFailures := 0;
          continue;
        }
        consecutiveBeatFailures := consecutiveBeatFailures + 1;
        if consecutiveBeatFailures >= BEAT_FAILURE_THRESHOLD {
          registered := false;
          consecutiveBeatFailures := 0;
        }
      }
    }
  }
}
