/** Certificate issuance against a CA that counts failures: the doubling back-off, kept per domain,
    and the rate it bounds.  Times are in nanoseconds; the CA's answers and the jitter are inputs. */
module Issuance {
  import opened Arithmetic

  const SECOND := 1_000_000_000
  const MINUTE := 60 * SECOND
  const BACKOFF_BASE := 5 * MINUTE
  const BACKOFF_MAX := 360 * MINUTE

  datatype Record = Record(count: nat, next: int)

  /** One pass over a domain: when the wait was checked, the attempt recorded, and the CA done with. */
  datatype Call = Call(domain: string, possible: bool, checked: int, started: int, ended: int, issued: bool, jitter: int)

  /** min(5 * 2^(n-1), 360) minutes after the n-th failure in a row. */
  function Backoff(n: nat): int
    ensures BACKOFF_BASE <= Backoff(n) <= BACKOFF_MAX
  {
    if n <= 1 then BACKOFF_BASE
    else if BACKOFF_BASE * Pow2(n - 1) < BACKOFF_MAX then (Pow2AtLeastOne(n - 1); BACKOFF_BASE * Pow2(n - 1))
    else BACKOFF_MAX
  }

  lemma {:induction false} Pow2AtLeastOne(k: nat)
    ensures Pow2(k) >= 1
  {
    if k > 0 {
      Pow2AtLeastOne(k - 1);
    }
  }

  method BackoffFor(count: nat) returns (d: int)
    ensures d == Backoff(count)
  {
    d := BACKOFF_BASE;
    var i := 1;
    while i < count && d < BACKOFF_MAX
      invariant i == 1 || 1 < i <= count
      invariant d == BACKOFF_BASE * Pow2(i - 1)
      invariant i > 1 ==> BACKOFF_BASE * Pow2(i - 2) < BACKOFF_MAX
    {
      d := d * 2;
      i := i + 1;
    }
    if i < count {
      DoublingGrows(i - 1, count - 1);
    }
    if d > BACKOFF_MAX {
      d := BACKOFF_MAX;
    }
  }

  lemma {:induction false} DoublingGrows(a: nat, b: nat)
    requires a <= b
    ensures Pow2(a) <= Pow2(b)
  {
    if a < b {
      DoublingGrows(a, b - 1);
    }
  }

  // ----- one call

  predicate Waiting(failures: map<string, Record>, domain: string, now: int) {
    domain in failures && now < failures[domain].next
  }

  predicate Attempts(failures: map<string, Record>, c: Call) {
    c.possible && !Waiting(failures, c.domain, c.checked)
  }

  function CountOf(failures: map<string, Record>, domain: string): nat {
    if domain in failures then failures[domain].count else 0
  }

  function Attempted(failures: map<string, Record>, c: Call): map<string, Record> {
    if !Attempts(failures, c) then failures
    else if c.issued then failures - {c.domain}
    else
      var n := CountOf(failures, c.domain) + 1;
      failures[c.domain := Record(n, c.ended + Backoff(n) + c.jitter)]
  }

  class CertManager {
    var failures: map<string, Record>

    constructor ()
      ensures failures == map[]
    {
      failures := map[];
    }

    method RecordAttempt(domain: string, now: int)
      modifies this
      ensures failures == old(failures)[domain := Record(CountOf(old(failures), domain), now + Backoff(CountOf(old(failures), domain)))]
    {
      var rec := if domain in failures then failures[domain] else Record(0, 0);
      var wait := BackoffFor(rec.count);
      failures := failures[domain := rec.(next := now + wait)];
    }

    method RecordFailure(domain: string, now: int, jitter: int)
      modifies this
      ensures var n := CountOf(old(failures), domain) + 1;
              failures == old(failures)[domain := Record(n, now + Backoff(n) + jitter)]
    {
      var rec := if domain in failures then failures[domain] else Record(0, 0);
      rec := rec.(count := rec.count + 1);
      var wait := BackoffFor(rec.count);
      failures := failures[domain := rec.(next := now + wait + jitter)];
    }

    method RecordSuccess(domain: string)
      modifies this
      ensures failures == old(failures) - {domain}
    {
      failures := failures - {domain};
    }

    /** Whether the CA was contacted; a success is a certificate issued and stored. */
    method AttemptIssuance(c: Call) returns (attempted: bool)
      modifies this
      ensures failures == Attempted(old(failures), c)
      ensures attempted == Attempts(old(failures), c)
    {
      if !c.possible {
        return false;
      }
      if c.domain in failures && !(c.checked >= failures[c.domain].next) {
        return false;
      }
      RecordAttempt(c.domain, c.started);
      if !c.issued {
        RecordFailure(c.domain, c.ended, c.jitter);
        return true;
      }
      RecordSuccess(c.domain);
      return true;
    }
  }

  // ----- runs

  /** The records after the first n calls. */
  function After(run: seq<Call>, n: nat): map<string, Record>
    requires n <= |run|
  {
    if n == 0 then map[] else Attempted(After(run, n - 1), run[n - 1])
  }

  /** When the attempts on one domain were recorded, among the first n calls. */
  function StartsUpTo(run: seq<Call>, domain: string, n: nat): seq<int>
    requires n <= |run|
  {
    if n == 0 then []
    else
      var c := run[n - 1];
      StartsUpTo(run, domain, n - 1) + (if c.domain == domain && Attempts(After(run, n - 1), c) then [c.started] else [])
  }

  function Starts(run: seq<Call>, domain: string): seq<int> {
    StartsUpTo(run, domain, |run|)
  }

  /** One reconciling goroutine: calls follow one another, and the jitter is non-negative.  A call
      inside its wait returns at once. */
  ghost predicate Sequential(run: seq<Call>) {
    && (forall i :: 0 <= i < |run| ==> run[i].checked <= run[i].started <= run[i].ended && run[i].jitter >= 0)
    && (forall i, j :: 0 <= i < j < |run| ==> run[i].ended <= run[j].checked)
  }

  ghost predicate NeverIssued(run: seq<Call>, domain: string) {
    forall i :: 0 <= i < |run| && run[i].domain == domain ==> !run[i].issued
  }

  /** Attempt k waits out the back-off of the k failures before it. */
  ghost predicate Spaced(starts: seq<int>) {
    forall k {:trigger starts[k]} :: 0 < k < |starts| ==> starts[k] >= starts[k - 1] + Backoff(k)
  }

  /** The record of a domain counts its attempts, and its wait outlasts the back-off since the last. */
  ghost predicate Counted(starts: seq<int>, failures: map<string, Record>, domain: string) {
    && CountOf(failures, domain) == |starts|
    && (starts != [] ==> domain in failures && failures[domain].next >= starts[|starts| - 1] + Backoff(|starts|))
  }

  lemma CallCounted(starts: seq<int>, failures: map<string, Record>, c: Call)
    requires Spaced(starts) && Counted(starts, failures, c.domain) && !c.issued && Attempts(failures, c)
    requires c.checked <= c.started <= c.ended && c.jitter >= 0
    ensures Spaced(starts + [c.started]) && Counted(starts + [c.started], Attempted(failures, c), c.domain)
  {
  }

  lemma OtherwiseCounted(starts: seq<int>, failures: map<string, Record>, c: Call, domain: string)
    requires Counted(starts, failures, domain) && !(c.domain == domain && Attempts(failures, c))
    ensures Counted(starts, Attempted(failures, c), domain)
  {
  }

  lemma {:induction false} FailuresSpace(run: seq<Call>, domain: string, n: nat)
    requires Sequential(run) && NeverIssued(run, domain) && n <= |run|
    ensures Spaced(StartsUpTo(run, domain, n)) && Counted(StartsUpTo(run, domain, n), After(run, n), domain)
  {
    if n > 0 {
      var starts, failures, c := StartsUpTo(run, domain, n - 1), After(run, n - 1), run[n - 1];
      FailuresSpace(run, domain, n - 1);
      if c.domain == domain && Attempts(failures, c) {
        CallCounted(starts, failures, c);
      } else {
        OtherwiseCounted(starts, failures, c, domain);
        assert starts + [] == starts;
      }
    }
  }

  // ----- what the spacing bounds

  function Total(i: nat, n: nat): int
    requires i <= n
  {
    if i == n then 0 else Total(i, n - 1) + Backoff(n)
  }

  lemma {:induction false} SpanIsTotal(starts: seq<int>, i: nat, j: nat)
    requires Spaced(starts) && i <= j < |starts|
    ensures starts[j] - starts[i] >= Total(i, j)
  {
    if i < j {
      SpanIsTotal(starts, i, j - 1);
    }
  }

  lemma {:induction false} BackoffGrows(a: nat, b: nat)
    requires a <= b
    ensures Backoff(a) <= Backoff(b)
  {
    if a < b {
      BackoffGrows(a, b - 1);
      DoublingGrows(if b >= 2 then b - 2 else 0, b - 1);
    }
  }

  lemma FirstBackoffs()
    ensures Backoff(1) == 5 * MINUTE && Backoff(2) == 10 * MINUTE && Backoff(3) == 20 * MINUTE && Backoff(4) == 40 * MINUTE
    ensures Backoff(5) == 80 * MINUTE && Backoff(6) == 160 * MINUTE && Backoff(7) == 320 * MINUTE
    ensures forall n: nat :: n >= 8 ==> Backoff(n) == 360 * MINUTE
  {
    assert Pow2(3) == 8;
    assert Pow2(5) == 32;
    assert Pow2(7) == 128;
    forall n: nat | n >= 8
      ensures Backoff(n) == 360 * MINUTE
    {
      DoublingGrows(7, n - 1);
    }
  }

  lemma AnyFour(i: nat)
    ensures Total(i, i + 4) >= 75 * MINUTE
  {
    FirstBackoffs();
    BackoffGrows(1, i + 1);
    BackoffGrows(2, i + 2);
    BackoffGrows(3, i + 3);
    BackoffGrows(4, i + 4);
    assert Total(i, i + 2) == Total(i, i + 1) + Backoff(i + 2);
    assert Total(i, i + 4) == Total(i, i + 3) + Backoff(i + 4);
  }

  /** While a domain keeps failing, no window of 60 minutes holds more than four attempts: the fifth
      comes at least 75 minutes after the first. */
  lemma FourPerHour(run: seq<Call>, domain: string, starts: seq<int>, i: nat)
    requires Sequential(run) && NeverIssued(run, domain) && starts == Starts(run, domain) && i + 4 < |starts|
    ensures starts[i + 4] - starts[i] >= 75 * MINUTE
  {
    FailuresSpace(run, domain, |run|);
    SpanIsTotal(starts, i, i + 4);
    AnyFour(i);
  }

  /** In the long run: m failing attempts take at least 635 + 360 (m - 8) minutes. */
  lemma LongRun(run: seq<Call>, domain: string, starts: seq<int>)
    requires Sequential(run) && NeverIssued(run, domain) && starts == Starts(run, domain) && |starts| >= 8
    ensures starts[|starts| - 1] - starts[0] >= (635 + 360 * (|starts| - 8)) * MINUTE
  {
    FailuresSpace(run, domain, |run|);
    LongSpan(starts);
  }

  lemma LongSpan(starts: seq<int>)
    requires Spaced(starts) && |starts| >= 8
    ensures starts[|starts| - 1] - starts[0] >= (635 + 360 * (|starts| - 8)) * MINUTE
  {
    SpanIsTotal(starts, 0, |starts| - 1);
    TotalFrom(|starts| - 1);
  }

  lemma {:induction false} TotalFrom(n: nat)
    requires n >= 7
    ensures Total(0, n) == (635 + 360 * (n - 7)) * MINUTE
  {
    FirstBackoffs();
    if n == 7 {
      assert Total(0, 2) == 15 * MINUTE;
      assert Total(0, 4) == 75 * MINUTE;
      assert Total(0, 6) == 315 * MINUTE;
    } else {
      TotalFrom(n - 1);
    }
  }
}
