/** The bound on silence is attained: for every number of failures in a row there is a run in which
    the registry is without word for exactly that long, and so an exact condition for staying
    listed. */
module Outages {
  import opened RegistryClient
  import opened Heartbeats
  import N = NamingRuns
  import S = NamingStore

  /** The calls of a client that registers, fails n times in a row, and gets through again. */
  function OutageLog(n: nat, c: Settings): seq<Call> {
    seq(n + 2, x requires 0 <= x < n + 2 =>
      if x == 0 then Call(Register, 0, Accepted(0))
      else Call(GapKind(x), GapWait(x, c), if x <= n then Failed else Accepted(0)))
  }

  /** When call x is done, every call after the first taking the whole request timeout to be applied. */
  function DoneAt(x: nat, c: Settings): int {
    1 + c.requestTimeout + Waits(x, c) + Product(x, c.requestTimeout)
  }

  function OutageTimes(n: nat, c: Settings): Times {
    Times(seq(n + 2, x requires 0 <= x < n + 2 => DoneAt(x, c) - c.requestTimeout),
          seq(n + 2, x requires 0 <= x < n + 2 => if x == 0 then 1 else DoneAt(x, c)),
          seq(n + 2, x requires 0 <= x < n + 2 => DoneAt(x, c)))
  }

  function Ephemeral(k: S.Key): S.Upsert {
    S.Upsert(k, 1.0, true, true, "")
  }

  function Back(n: nat, k: S.Key): N.Op {
    if GapKind(n + 1) == Beat then N.Beat(Ephemeral(k)) else N.Register(Ephemeral(k))
  }

  /** The registry's run: the registration, whatever `between` holds, and the call that got through. */
  function OutageRun(n: nat, k: S.Key, between: seq<N.Timed>, c: Settings): ClientRun {
    ClientRun(map[],
              [N.Timed(1, N.Register(Ephemeral(k)))] + between + [N.Timed(1 + Silence(n, c), Back(n, k))],
              OutageLog(n, c), OutageTimes(n, c),
              seq(n + 2, x requires 0 <= x < n + 2 => if x == n + 1 then |between| + 1 else 0))
  }

  lemma {:induction false} NothingAdvertised(n: nat, c: Settings, x: nat)
    requires Sensible(c) && x <= n + 2
    ensures Interval(OutageLog(n, c)[..x], c.interval) == c.interval
  {
    if x > 0 {
      NothingAdvertised(n, c, x - 1);
      assert Init(OutageLog(n, c)[..x]) == OutageLog(n, c)[..x - 1];
      assert Last(OutageLog(n, c)[..x]) == OutageLog(n, c)[x - 1];
    }
  }

  lemma OutageFollows(n: nat, c: Settings)
    requires Sensible(c)
    ensures Follows(OutageLog(n, c), c.interval, c.initial, c.max)
  {
    var log := OutageLog(n, c);
    forall i {:trigger log[i]} | 0 <= i < |log|
      ensures log[i].kind == Due(log[..i]) && log[i].waited == WaitDue(log[..i], c.interval, c.initial, c.max)
    {
      if i > 0 {
        assert Gap(log, 0, i - 1);
        DueAfterGap(log, 0, i - 1);
        NothingAdvertised(n, c, i);
      }
    }
  }

  lemma OutageTimed(n: nat, c: Settings)
    requires Sensible(c)
    ensures Timed(OutageLog(n, c), OutageTimes(n, c), c.requestTimeout)
  {
    var log, t := OutageLog(n, c), OutageTimes(n, c);
    forall i {:trigger log[i]} | 0 < i < |log|
      ensures t.sent[i] == t.done[i - 1] + log[i].waited
    {
      assert Waits(i, c) == Waits(i - 1, c) + GapWait(i, c);
      assert Product(i, c.requestTimeout) == Product(i - 1, c.requestTimeout) + c.requestTimeout;
    }
  }

  lemma OutageFails(n: nat, c: Settings)
    ensures FailsAtMost(OutageLog(n, c), n)
  {
    var log := OutageLog(n, c);
    forall i, j | 0 <= i <= j <= |log| && AllFailed(log, i, j)
      ensures j - i <= n
    {
      assert log[0].answer.Accepted? && log[n + 1].answer.Accepted?;
    }
  }

  /** The silence is attained. */
  lemma SilenceAttained(n: nat, c: Settings)
    requires Sensible(c)
    ensures var log, t := OutageLog(n, c), OutageTimes(n, c);
            && Follows(log, c.interval, c.initial, c.max) && Timed(log, t, c.requestTimeout)
            && NextAccepted(log, 0, n + 1) && FailsAtMost(log, n) && BeatsWithin(log, c.interval)
            && t.applied[n + 1] - t.applied[0] == Silence(n, c)
  {
    OutageFollows(n, c);
    OutageTimed(n, c);
    OutageFails(n, c);
    assert Product(n + 2, c.requestTimeout) == Product(n + 1, c.requestTimeout) + c.requestTimeout;
  }

  /** What may stand between: sweeps, made before the client is heard again. */
  ghost predicate OnlySweeps(between: seq<N.Timed>, end: int) {
    && (forall i :: 0 <= i < |between| ==> N.BySweeper(between[i].op) && between[i].op.seen <= between[i].at && 1 <= between[i].at <= end)
    && (forall i, j :: 0 <= i < j < |between| ==> between[i].at <= between[j].at)
  }

  lemma OutageRegistered(n: nat, k: S.Key, between: seq<N.Timed>, c: Settings)
    requires Sensible(c) && OnlySweeps(between, 1 + Silence(n, c))
    ensures Registered(OutageRun(n, k, between, c).trace, k)
  {
    var trace, m := OutageRun(n, k, between, c).trace, |between|;
    SilencePositive(n, c);
    assert trace[0] == N.Timed(1, N.Register(Ephemeral(k))) && trace[m + 1] == N.Timed(1 + Silence(n, c), Back(n, k));
    assert forall i :: 0 < i <= m ==> trace[i] == between[i - 1];
    forall i, j | 0 <= i < j < |trace|
      ensures trace[i].at <= trace[j].at
    {
    }
  }

  lemma OutageRuns(n: nat, k: S.Key, between: seq<N.Timed>, c: Settings)
    requires Sensible(c) && k.cluster != "" && OnlySweeps(between, 1 + Silence(n, c))
    ensures Runs(OutageRun(n, k, between, c), k, n, c) && Ended(OutageRun(n, k, between, c))
  {
    SilenceAttained(n, c);
    OutageRegistered(n, k, between, c);
    OutageCarried(n, k, between, c);
  }

  lemma OutageCarried(n: nat, k: S.Key, between: seq<N.Timed>, c: Settings)
    requires Sensible(c) && k.cluster != ""
    ensures var run := OutageRun(n, k, between, c); Carries(run.trace, k, run.log, run.times, run.place)
  {
    var run := OutageRun(n, k, between, c);
    assert Silence(n, c) == DoneAt(n + 1, c) - 1 by {
      assert Product(n + 2, c.requestTimeout) == Product(n + 1, c.requestTimeout) + c.requestTimeout;
    }
    assert run.trace[0] == N.Timed(1, N.Register(Ephemeral(k)));
    assert run.trace[|between| + 1] == N.Timed(1 + Silence(n, c), Back(n, k));
  }

  /** The registry just before it hears from the client again. */
  lemma OutageTable(cfg: S.Config, n: nat, k: S.Key, c: Settings)
    requires k.cluster != ""
    ensures var run := OutageRun(n, k, [], c);
            N.After(cfg, run.rows, run.trace[..1]) == map[k := S.NewRow(Ephemeral(k), 1)]
  {
    var run := OutageRun(n, k, [], c);
    assert run.trace[..1] == [N.Timed(1, N.Register(Ephemeral(k)))];
    assert run.trace[..1][..0] == [];
  }

  lemma TooLongIsUnlisted(cfg: S.Config, k: S.Key, n: nat, c: Settings)
    requires Sensible(c) && k.cluster != "" && Silence(n, c) > cfg.timeout
    ensures !AlwaysListed(cfg, OutageRun(n, k, [], c), k)
  {
    var run := OutageRun(n, k, [], c);
    var q := S.Query(k.namespace, k.group, k.service, {}, true);
    OutageTable(cfg, n, k, c);
    SilencePositive(n, c);
    assert run.trace[1] == N.Timed(1 + Silence(n, c), Back(n, k));
    assert Asks(q, k);
    assert !ListedAt(cfg, run, k, 1, q, 1 + Silence(n, c));
  }

  /** A client at most n of whose calls fail in a row is in every healthy-only listing of every run,
      whatever the answers, delays and sweeps, if and only if the silence of n failures fits the
      health timeout. */
  lemma StaysListedIff(cfg: S.Config, k: S.Key, n: nat, c: Settings)
    requires Sensible(c) && k.cluster != "" && cfg.timeout <= cfg.deleteAfter
    ensures (forall run :: Runs(run, k, n, c) && Ended(run) ==> AlwaysListed(cfg, run, k)) <==> Silence(n, c) <= cfg.timeout
  {
    if Silence(n, c) <= cfg.timeout {
      forall run | Runs(run, k, n, c) && Ended(run)
        ensures AlwaysListed(cfg, run, k)
      {
        FitsIsListed(cfg, run, k, n, c);
      }
    } else {
      SilencePositive(n, c);
      OutageRuns(n, k, [], c);
      TooLongIsUnlisted(cfg, k, n, c);
    }
  }

  function LateSweep(n: nat, c: Settings): seq<N.Timed> {
    var late := 1 + Silence(n, c);
    [N.Timed(late, N.MarkStale(late)), N.Timed(late, N.Purge(late))]
  }

  lemma TooLongIsDeleted(cfg: S.Config, k: S.Key, n: nat, c: Settings)
    requires Sensible(c) && k.cluster != "" && Silence(n, c) > cfg.deleteAfter
    ensures !AlwaysPresent(cfg, OutageRun(n, k, LateSweep(n, c), c), k)
  {
    var run, late := OutageRun(n, k, LateSweep(n, c), c), 1 + Silence(n, c);
    var trace := run.trace;
    assert trace[..3] == [N.Timed(1, N.Register(Ephemeral(k)))] + LateSweep(n, c);
    N.AfterSweep(cfg, trace[..3]);
    assert k !in N.After(cfg, run.rows, trace[..3]);
  }

  /** ... and never loses its row to a sweep if and only if that silence fits the deletion limit. */
  lemma KeepsItsRowIff(cfg: S.Config, k: S.Key, n: nat, c: Settings)
    requires Sensible(c) && k.cluster != ""
    ensures (forall run :: Runs(run, k, n, c) && Ended(run) ==> AlwaysPresent(cfg, run, k)) <==> Silence(n, c) <= cfg.deleteAfter
  {
    if Silence(n, c) <= cfg.deleteAfter {
      forall run | Runs(run, k, n, c) && Ended(run)
        ensures AlwaysPresent(cfg, run, k)
      {
        FitsIsPresent(cfg, run, k, n, c);
      }
    } else {
      SilencePositive(n, c);
      OutageRuns(n, k, LateSweep(n, c), c);
      TooLongIsDeleted(cfg, k, n, c);
    }
  }

  /** The shipped settings: a beat every 5 s, calls given up after 3 s, retries from 1 s to 30 s. */
  const SHIPPED := Settings(DEFAULT_HEARTBEAT_INTERVAL, 3_000, REGISTER_BACKOFF_INITIAL, REGISTER_BACKOFF_MAX)

  lemma ShippedSilence()
    ensures Silence(0, SHIPPED) == 11_000 && Silence(1, SHIPPED) == 19_000 && Silence(3, SHIPPED) == 30_000
    ensures Silence(4, SHIPPED) == 34_000
  {
    assert Waits(2, SHIPPED) == 10_000;
    assert Waits(4, SHIPPED) == 15_000;
    assert Waits(5, SHIPPED) == 16_000;
    assert Product(2, 3_000) == 6_000;
    assert Product(4, 3_000) == 12_000;
    assert Product(6, 3_000) == 18_000;
  }

  /** With the shipped timeouts of 15 s and 30 s: a client is sure to stay listed only if no call ever
      fails, and sure to keep its row only if no more than three do in a row, which its third beat
      and the registration after it just manage. */
  lemma ShippedNumbers(cfg: S.Config, k: S.Key, n: nat)
    requires cfg.timeout == 15_000 && cfg.deleteAfter == 30_000 && k.cluster != ""
    ensures (forall run :: Runs(run, k, n, SHIPPED) && Ended(run) ==> AlwaysListed(cfg, run, k)) <==> n == 0
    ensures (forall run :: Runs(run, k, n, SHIPPED) && Ended(run) ==> AlwaysPresent(cfg, run, k)) <==> n <= 3
  {
    ShippedSilence();
    StaysListedIff(cfg, k, n, SHIPPED);
    KeepsItsRowIff(cfg, k, n, SHIPPED);
    if n > 0 {
      SilenceGrows(1, n, SHIPPED);
    }
    if n <= 3 {
      SilenceGrows(n, 3, SHIPPED);
    } else {
      SilenceGrows(4, n, SHIPPED);
    }
  }
}
