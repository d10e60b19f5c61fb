/** The two halves of the heartbeat protocol together: how long the registry can go without hearing
    from a client that is alive, and so exactly when its row stays listed and survives every sweep. */
module Heartbeats {
  import opened Arithmetic
  import opened RegistryClient
  import N = NamingRuns
  import S = NamingStore

  /** When each call was sent, applied by the registry, and answered (or given up). */
  datatype Times = Times(sent: seq<int>, applied: seq<int>, done: seq<int>)

  /** What the client is configured with. */
  datatype Settings = Settings(interval: int, requestTimeout: int, initial: int, max: int)

  ghost predicate Sensible(c: Settings) {
    c.interval > 0 && c.requestTimeout >= 0 && c.initial > 0 && c.max > 0
  }

  /** Calls never outlast the request timeout and timers fire on time. */
  ghost predicate Timed(log: seq<Call>, t: Times, requestTimeout: int) {
    && |t.sent| == |t.applied| == |t.done| == |log|
    && (forall i {:trigger t.sent[i]} :: 0 <= i < |log| ==> t.sent[i] <= t.applied[i] <= t.done[i] <= t.sent[i] + requestTimeout)
    && (forall i {:trigger log[i]} :: 0 < i < |log| ==> t.sent[i] == t.done[i - 1] + log[i].waited)
  }

  function Product(n: nat, x: int): int {
    if n == 0 then 0 else Product(n - 1, x) + x
  }

  /** The x-th call after an accepted one, all calls between them having failed: three beats, then
      registrations. */
  function GapKind(x: nat): Kind {
    if x <= 3 then Beat else Register
  }

  /** The wait before it: three periods, none before the first registration, then the ladder. */
  function GapWait(x: nat, c: Settings): int
    requires x > 0
  {
    if x <= 3 then c.interval else if x == 4 then 0 else RetryWait(x - 4, c.initial, c.max)
  }

  function Waits(n: nat, c: Settings): int {
    if n == 0 then 0 else Waits(n - 1, c) + GapWait(n, c)
  }

  /** The longest the registry can be without word when n calls fail in a row: every wait up to the
      next accepted call, and one request timeout for each call involved. */
  function Silence(n: nat, c: Settings): int {
    Waits(n + 1, c) + Product(n + 2, c.requestTimeout)
  }

  lemma {:induction false} Pow2Positive(k: nat)
    ensures Pow2(k) > 0
  {
    if k > 0 {
      Pow2Positive(k - 1);
    }
  }

  lemma GapWaitNonNegative(x: nat, c: Settings)
    requires x > 0 && Sensible(c)
    ensures GapWait(x, c) >= 0
  {
    if x > 5 {
      Pow2Positive(x - 5);
      assert c.initial * Pow2(x - 5) > 0;
    }
  }

  lemma {:induction false} SilenceGrows(m: nat, n: nat, c: Settings)
    requires m <= n && Sensible(c)
    ensures Silence(m, c) <= Silence(n, c)
  {
    if m < n {
      SilenceGrows(m, n - 1, c);
      GapWaitNonNegative(n + 1, c);
    }
  }

  // ----- the calls after an accepted one

  /** The first y calls after call i are the ones a gap consists of, and failed. */
  ghost predicate Gap(log: seq<Call>, i: nat, y: nat) {
    && i + y < |log| && log[i].answer.Accepted?
    && forall m :: i < m <= i + y ==> log[m].kind == GapKind(m - i) && log[m].answer.Failed?
  }

  /** What such a history makes due. */
  lemma {:induction false} DueAfterGap(log: seq<Call>, i: nat, y: nat)
    requires Gap(log, i, y)
    ensures var h := log[..i + 1 + y];
            && FailedRun(h, Beat) == (if y <= 3 then y else 0)
            && FailedRun(h, Register) == (if y <= 3 then 0 else y - 3)
            && Due(h) == GapKind(y + 1)
  {
    var h := log[..i + 1 + y];
    assert Last(h) == log[i + y];
    if y > 0 {
      DueAfterGap(log, i, y - 1);
      assert Init(h) == log[..i + y];
    }
  }

  lemma {:induction false} IntervalAfterGap(log: seq<Call>, i: nat, y: nat, configured: int)
    requires Gap(log, i, y)
    ensures Interval(log[..i + 1 + y], configured) == Interval(log[..i + 1], configured)
  {
    if y > 0 {
      var h := log[..i + 1 + y];
      assert Last(h) == log[i + y] && Init(h) == log[..i + y];
      IntervalAfterGap(log, i, y - 1, configured);
    }
  }

  /** So the failed calls after an accepted one are a gap, and the waits are the gap's. */
  lemma {:induction false} FailuresAreGap(log: seq<Call>, i: nat, y: nat, c: Settings)
    requires Follows(log, c.interval, c.initial, c.max) && i + y < |log| && log[i].answer.Accepted?
    requires forall m :: i < m <= i + y ==> log[m].answer.Failed?
    ensures Gap(log, i, y)
  {
    if y > 0 {
      FailuresAreGap(log, i, y - 1, c);
      DueAfterGap(log, i, y - 1);
      assert log[i + y].kind == Due(log[..i + y]);
    }
  }

  lemma NextWait(log: seq<Call>, i: nat, y: nat, c: Settings)
    requires Follows(log, c.interval, c.initial, c.max) && Gap(log, i, y) && i + y + 1 < |log|
    requires log[i + y + 1].kind == Beat ==> log[i + y + 1].waited <= c.interval
    ensures log[i + y + 1].kind == GapKind(y + 1) && log[i + y + 1].waited <= GapWait(y + 1, c)
  {
    DueAfterGap(log, i, y);
    assert log[i + y + 1].kind == Due(log[..i + y + 1]);
  }

  // ----- the silence between two accepted calls

  /** Call j is the next one accepted after call i. */
  ghost predicate NextAccepted(log: seq<Call>, i: nat, j: nat) {
    && i < j < |log| && log[i].answer.Accepted? && log[j].answer.Accepted?
    && forall m :: i < m < j ==> log[m].answer.Failed?
  }

  ghost predicate BeatsWithin(log: seq<Call>, interval: int) {
    forall m {:trigger log[m]} :: 0 <= m < |log| && log[m].kind == Beat ==> log[m].waited <= interval
  }

  lemma {:induction false} Elapsed(log: seq<Call>, t: Times, i: nat, y: nat, c: Settings)
    requires Follows(log, c.interval, c.initial, c.max) && Timed(log, t, c.requestTimeout) && BeatsWithin(log, c.interval)
    requires Gap(log, i, y)
    ensures t.done[i + y] <= t.done[i] + Waits(y, c) + Product(y, c.requestTimeout)
  {
    if y > 0 {
      Elapsed(log, t, i, y - 1, c);
      NextWait(log, i, y - 1, c);
      assert t.sent[i + y] == t.done[i + y - 1] + log[i + y].waited;
    }
  }

  /** From applying one accepted call to applying the next, for a registry outage of any length. */
  lemma SilenceIsBounded(log: seq<Call>, t: Times, i: nat, j: nat, c: Settings)
    requires Follows(log, c.interval, c.initial, c.max) && Timed(log, t, c.requestTimeout) && BeatsWithin(log, c.interval)
    requires NextAccepted(log, i, j)
    ensures t.applied[j] - t.applied[i] <= Silence(j - i - 1, c)
  {
    FailuresAreGap(log, i, j - i - 1, c);
    GapBounded(log, t, i, j - i - 1, c);
  }

  lemma GapBounded(log: seq<Call>, t: Times, i: nat, y: nat, c: Settings)
    requires Follows(log, c.interval, c.initial, c.max) && Timed(log, t, c.requestTimeout) && BeatsWithin(log, c.interval)
    requires Gap(log, i, y) && i + y + 1 < |log|
    ensures t.applied[i + y + 1] - t.applied[i] <= Silence(y, c)
  {
    Elapsed(log, t, i, y, c);
    NextWait(log, i, y, c);
    SilenceUnfolds(y, c);
    OneCall(log, t, i, c.requestTimeout);
    OneCall(log, t, i + y + 1, c.requestTimeout);
    assert t.sent[i + y + 1] == t.done[i + y] + log[i + y + 1].waited;
  }

  lemma OneCall(log: seq<Call>, t: Times, i: nat, requestTimeout: int)
    requires Timed(log, t, requestTimeout) && i < |log|
    ensures t.applied[i] <= t.sent[i] + requestTimeout && t.done[i] - requestTimeout <= t.sent[i] <= t.applied[i]
  {
  }

  lemma SilenceUnfolds(y: nat, c: Settings)
    ensures Silence(y, c) == Waits(y, c) + GapWait(y + 1, c) + Product(y, c.requestTimeout) + c.requestTimeout + c.requestTimeout
  {
    assert Product(y + 2, c.requestTimeout) == Product(y + 1, c.requestTimeout) + c.requestTimeout;
  }

  // ----- and so the row survives

  /** In the registry's run, call i of the log is step place[i], if it was accepted. */
  ghost predicate Carries(trace: seq<N.Timed>, k: S.Key, log: seq<Call>, t: Times, place: seq<nat>) {
    && |place| == |log| > 0 && |t.applied| == |log|
    && log[0].answer.Accepted? && place[0] == 0
    && (forall i :: 0 <= i < |log| && log[i].answer.Accepted? ==>
          place[i] < |trace| && N.Refreshes(trace[place[i]].op, k) && trace[place[i]].at == t.applied[i])
    && (forall i, j :: 0 <= i < j < |log| && log[i].answer.Accepted? && log[j].answer.Accepted? ==> place[i] < place[j])
  }

  /** No more than n calls in a row fail, beats and registrations alike. */
  ghost predicate FailsAtMost(log: seq<Call>, n: nat) {
    forall i, j :: 0 <= i <= j <= |log| && AllFailed(log, i, j) ==> j - i <= n
  }

  ghost predicate AllFailed(log: seq<Call>, i: nat, j: nat)
    requires i <= j <= |log|
  {
    forall m :: i <= m < j ==> log[m].answer.Failed?
  }

  /** The latest accepted call among the first n that the registry applied before step x. */
  function LatestBefore(log: seq<Call>, place: seq<nat>, x: nat, n: nat): (i: nat)
    requires 0 < n <= |log| == |place| && log[0].answer.Accepted? && place[0] < x
    ensures i < n && log[i].answer.Accepted? && place[i] < x
    ensures forall j :: i < j < n && log[j].answer.Accepted? ==> place[j] >= x
  {
    if log[n - 1].answer.Accepted? && place[n - 1] < x then n - 1
    else LatestBefore(log, place, x, n - 1)
  }

  /** The first accepted call after call i, or the length of the log. */
  function FirstAfter(log: seq<Call>, i: nat): (j: nat)
    requires i < |log|
    ensures i < j <= |log| && (j < |log| ==> log[j].answer.Accepted?)
    ensures forall m :: i < m < j ==> log[m].answer.Failed?
    decreases |log| - i
  {
    if i + 1 == |log| || log[i + 1].answer.Accepted? then i + 1 else FirstAfter(log, i + 1)
  }

  lemma {:induction false} RefreshedSince(trace: seq<N.Timed>, k: S.Key, p: nat, x: nat)
    requires p < x <= |trace| && N.Refreshes(trace[p].op, k) && N.Monotone(trace)
    ensures N.LastRefresh(trace[..x], k) >= trace[p].at
  {
    var h := trace[..x];
    assert h[..x - 1] == trace[..x - 1];
    if p < x - 1 && !N.Refreshes(trace[x - 1].op, k) {
      RefreshedSince(trace, k, p, x - 1);
    }
  }

  /** The silence before the next accepted call fits the limit. */
  lemma GapFits(log: seq<Call>, t: Times, i: nat, j: nat, n: nat, limit: int, c: Settings)
    requires Follows(log, c.interval, c.initial, c.max) && Timed(log, t, c.requestTimeout) && BeatsWithin(log, c.interval)
    requires NextAccepted(log, i, j) && FailsAtMost(log, n) && Sensible(c) && Silence(n, c) <= limit
    ensures t.applied[j] - t.applied[i] <= limit
  {
    assert AllFailed(log, i + 1, j);
    SilenceIsBounded(log, t, i, j, c);
    SilenceGrows(j - i - 1, n, c);
  }

  /** At step x of the registry's run, refreshed at step p, and heard of again, or over, at step q. */
  lemma RecentBetween(trace: seq<N.Timed>, k: S.Key, p: nat, x: nat, q: nat, limit: int)
    requires N.Monotone(trace) && p < x <= q < |trace| && N.Refreshes(trace[p].op, k) && trace[q].at - trace[p].at <= limit
    ensures trace[x].at - N.LastRefresh(trace[..x], k) <= limit
  {
    RefreshedSince(trace, k, p, x);
    assert trace[x].at <= trace[q].at;
  }

  /** A run of the registry and the client in it: the client starts by registering and is never
      deregistered. */
  datatype ClientRun = ClientRun(rows: S.Table, trace: seq<N.Timed>, log: seq<Call>, times: Times, place: seq<nat>)

  ghost predicate Registered(trace: seq<N.Timed>, k: S.Key) {
    && N.Monotone(trace) && N.EphemeralBeats(trace)
    && trace != [] && trace[0].op.Register? && trace[0].at > 0
    && (forall i :: 0 <= i < |trace| && trace[i].op.Register? && S.Defaulted(trace[i].op.u.key) == k ==> trace[i].op.u.ephemeral)
    && (forall i :: 0 <= i < |trace| && trace[i].op.Delete? ==> S.Defaulted(trace[i].op.key) != k)
  }

  ghost predicate Runs(run: ClientRun, k: S.Key, n: nat, c: Settings) {
    && N.NoBlank(run.rows) && Registered(run.trace, k)
    && Carries(run.trace, k, run.log, run.times, run.place)
    && Follows(run.log, c.interval, c.initial, c.max) && Timed(run.log, run.times, c.requestTimeout)
    && FailsAtMost(run.log, n) && BeatsWithin(run.log, c.interval)
  }

  /** The run does not outlast the client's last accepted call by more than the limit. */
  ghost predicate TailFits(run: ClientRun, limit: int)
    requires |run.times.applied| == |run.log| && run.trace != []
  {
    EndFits(run.log, run.times, run.trace[|run.trace| - 1].at, limit)
  }

  ghost predicate EndFits(log: seq<Call>, t: Times, end: int, limit: int)
    requires |t.applied| == |log|
  {
    forall i {:trigger t.applied[i]} :: 0 <= i < |log| && log[i].answer.Accepted? && FirstAfter(log, i) == |log| ==>
      end <= t.applied[i] + limit
  }

  lemma GapAfter(run: ClientRun, k: S.Key, n: nat, limit: int, c: Settings, i: nat)
    requires Runs(run, k, n, c) && Sensible(c) && Silence(n, c) <= limit
    requires i < |run.log| && run.log[i].answer.Accepted? && FirstAfter(run.log, i) < |run.log|
    ensures run.times.applied[FirstAfter(run.log, i)] - run.times.applied[i] <= limit
  {
    GapFits(run.log, run.times, i, FirstAfter(run.log, i), n, limit, c);
  }

  ghost predicate GapsFit(log: seq<Call>, t: Times, limit: int)
    requires |t.applied| == |log|
  {
    forall i {:trigger t.applied[i]} :: 0 <= i < |log| && log[i].answer.Accepted? && FirstAfter(log, i) < |log| ==>
      t.applied[FirstAfter(log, i)] - t.applied[i] <= limit
  }

  lemma Around(log: seq<Call>, place: seq<nat>, x: nat) returns (i: nat, j: nat)
    requires |place| == |log| > 0 && log[0].answer.Accepted? && place[0] < x
    ensures i < |log| && log[i].answer.Accepted? && place[i] < x && j == FirstAfter(log, i)
    ensures j < |log| ==> log[j].answer.Accepted? && place[j] >= x
  {
    i := LatestBefore(log, place, x, |log|);
    j := FirstAfter(log, i);
  }

  lemma BeatsInTime(trace: seq<N.Timed>, k: S.Key, log: seq<Call>, t: Times, place: seq<nat>, limit: int, x: nat)
    requires N.Monotone(trace) && Carries(trace, k, log, t, place) && 0 < x < |trace|
    requires GapsFit(log, t, limit) && EndFits(log, t, trace[|trace| - 1].at, limit)
    ensures trace[x].at - N.LastRefresh(trace[..x], k) <= limit
  {
    var i, j := Around(log, place, x);
    assert N.Refreshes(trace[place[i]].op, k) && trace[place[i]].at == t.applied[i];
    if j < |log| {
      assert trace[place[j]].at == t.applied[j];
    }
    RecentBetween(trace, k, place[i], x, if j < |log| then place[j] else |trace| - 1, limit);
  }

  lemma GapsAllFit(run: ClientRun, k: S.Key, n: nat, limit: int, c: Settings)
    requires Runs(run, k, n, c) && Sensible(c) && Silence(n, c) <= limit
    ensures GapsFit(run.log, run.times, limit)
  {
    forall i | 0 <= i < |run.log| && run.log[i].answer.Accepted? && FirstAfter(run.log, i) < |run.log|
      ensures run.times.applied[FirstAfter(run.log, i)] - run.times.applied[i] <= limit
    {
      GapAfter(run, k, n, limit, c, i);
    }
  }

  lemma BeatsThroughout(trace: seq<N.Timed>, k: S.Key, log: seq<Call>, t: Times, place: seq<nat>, limit: int)
    requires N.Monotone(trace) && Carries(trace, k, log, t, place) && trace != []
    requires GapsFit(log, t, limit) && EndFits(log, t, trace[|trace| - 1].at, limit)
    ensures N.InTime(trace, k, limit)
  {
    forall x {:trigger trace[..x]} | 0 < x < |trace|
      ensures trace[x].at - N.LastRefresh(trace[..x], k) <= limit
    {
      BeatsInTime(trace, k, log, t, place, limit, x);
    }
  }

  /** A client no more than n of whose calls fail in a row, outages of the registry included, keeps
      beating if the silence fits the limit. */
  lemma ClientKeepsBeating(run: ClientRun, k: S.Key, n: nat, limit: int, c: Settings)
    requires Runs(run, k, n, c) && Sensible(c) && Silence(n, c) <= limit && TailFits(run, limit)
    ensures N.KeepsBeating(run.trace, k, limit)
  {
    GapsAllFit(run, k, n, limit, c);
    BeatsThroughout(run.trace, k, run.log, run.times, run.place, limit);
    assert N.Refreshes(run.trace[run.place[0]].op, k);
  }

  /** So it keeps its row through every sweep, and keeps it healthy if the silence fits the timeout. */
  lemma ClientKeepsItsRow(cfg: S.Config, run: ClientRun, k: S.Key, n: nat, limit: int, c: Settings)
    requires Runs(run, k, n, c) && Sensible(c) && Silence(n, c) <= limit <= cfg.deleteAfter && TailFits(run, limit)
    ensures N.Kept(N.After(cfg, run.rows, run.trace), k, N.LastRefresh(run.trace, k), limit <= cfg.timeout)
  {
    ClientKeepsBeating(run, k, n, limit, c);
    N.RowKept(cfg, run.rows, run.trace, k, limit);
  }

  // ----- exactly when

  /** The run ends with an accepted call. */
  ghost predicate Ended(run: ClientRun) {
    && run.log != [] && |run.place| == |run.log| && run.log[|run.log| - 1].answer.Accepted?
    && run.place[|run.log| - 1] == |run.trace| - 1
  }

  ghost predicate Asks(q: S.Query, k: S.Key) {
    S.Matches(k, q) && q.healthyOnly
  }

  /** Every healthy-only listing made after the first step and up to the last finds the client. */
  ghost predicate AlwaysListed(cfg: S.Config, run: ClientRun, k: S.Key) {
    forall x: nat, q: S.Query, now: int :: ListedAt(cfg, run, k, x, q, now)
  }

  ghost predicate ListedAt(cfg: S.Config, run: ClientRun, k: S.Key, x: nat, q: S.Query, now: int) {
    0 < x < |run.trace| && run.trace[x - 1].at <= now <= run.trace[x].at && Asks(q, k) ==>
      k in S.Listed(cfg, N.After(cfg, run.rows, run.trace[..x]), q, now)
  }

  /** No step of the run leaves the table without the client's row. */
  ghost predicate AlwaysPresent(cfg: S.Config, run: ClientRun, k: S.Key) {
    forall x {:trigger run.trace[..x]} :: 0 < x <= |run.trace| ==> k in N.After(cfg, run.rows, run.trace[..x])
  }

  lemma KeepsBeatingPrefix(trace: seq<N.Timed>, k: S.Key, limit: int, x: nat)
    requires N.KeepsBeating(trace, k, limit) && N.Monotone(trace) && N.EphemeralBeats(trace) && 0 < x <= |trace|
    ensures N.KeepsBeating(trace[..x], k, limit) && N.Monotone(trace[..x]) && N.EphemeralBeats(trace[..x])
  {
    var h := trace[..x];
    forall i {:trigger h[..i]} | 0 < i < |h|
      ensures h[i].at - N.LastRefresh(h[..i], k) <= limit
    {
      assert h[..i] == trace[..i];
    }
  }

  lemma EndedFits(run: ClientRun, k: S.Key, n: nat, limit: int, c: Settings)
    requires Runs(run, k, n, c) && Ended(run) && limit >= 0
    ensures TailFits(run, limit)
  {
    forall i | 0 <= i < |run.log| && run.log[i].answer.Accepted? && FirstAfter(run.log, i) == |run.log|
      ensures i == |run.log| - 1
    {
    }
  }

  lemma {:induction false} SilencePositive(n: nat, c: Settings)
    requires Sensible(c)
    ensures Silence(n, c) > 0
  {
    SilenceGrows(0, n, c);
    assert Silence(0, c) > 0 by {
      SilenceUnfolds(0, c);
    }
  }

  lemma RowAt(cfg: S.Config, run: ClientRun, k: S.Key, n: nat, limit: int, c: Settings, x: nat)
    requires Runs(run, k, n, c) && Sensible(c) && Ended(run) && Silence(n, c) <= limit <= cfg.deleteAfter
    requires 0 < x <= |run.trace|
    ensures N.Kept(N.After(cfg, run.rows, run.trace[..x]), k, N.LastRefresh(run.trace[..x], k), limit <= cfg.timeout)
    ensures 0 < N.LastRefresh(run.trace[..x], k) <= run.trace[x - 1].at
    ensures x < |run.trace| ==> run.trace[x].at - N.LastRefresh(run.trace[..x], k) <= limit
  {
    SilencePositive(n, c);
    EndedFits(run, k, n, limit, c);
    ClientKeepsBeating(run, k, n, limit, c);
    KeepsBeatingPrefix(run.trace, k, limit, x);
    N.RowKept(cfg, run.rows, run.trace[..x], k, limit);
  }

  lemma FitsIsListed(cfg: S.Config, run: ClientRun, k: S.Key, n: nat, c: Settings)
    requires Runs(run, k, n, c) && Sensible(c) && Ended(run) && Silence(n, c) <= cfg.timeout <= cfg.deleteAfter
    ensures AlwaysListed(cfg, run, k)
  {
    forall x: nat, q: S.Query, now: int
      ensures ListedAt(cfg, run, k, x, q, now)
    {
      if 0 < x < |run.trace| && run.trace[x - 1].at <= now <= run.trace[x].at && Asks(q, k) {
        SilencePositive(n, c);
        RowAt(cfg, run, k, n, cfg.timeout, c, x);
      }
    }
  }

  lemma FitsIsPresent(cfg: S.Config, run: ClientRun, k: S.Key, n: nat, c: Settings)
    requires Runs(run, k, n, c) && Sensible(c) && Ended(run) && Silence(n, c) <= cfg.deleteAfter
    ensures AlwaysPresent(cfg, run, k)
  {
    forall x {:trigger run.trace[..x]} | 0 < x <= |run.trace|
      ensures k in N.After(cfg, run.rows, run.trace[..x])
    {
      RowAt(cfg, run, k, n, cfg.deleteAfter, c, x);
    }
  }
}
