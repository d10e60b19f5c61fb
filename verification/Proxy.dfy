/** Forwarding one request, with failover while nothing has reached the client.

    What an upstream does is an input: `upstream(n, a)` is the outcome of the request's n-th dial
    if it goes to address a.  Header rewriting and the transports are not part of this model.
  */
module Proxy {
  import opened Arithmetic
  import opened Registry
  import opened LoadBalancer
  import opened PickerRuns

  const MAX_ATTEMPTS := 3

  /** A failed dial either left the response untouched or had already written to it.  If the body
      breaks off while it is copied, on either side, the reverse proxy panics and nothing after the
      call is done: neither the release nor an answer. */
  datatype Outcome = Answered | FailedUnwritten | FailedWritten | Aborted

  datatype Reply =
    | Served            // the upstream's own answer
    | Truncated         // bytes went out, then the upstream failed
    | Dropped           // the connection is cut in the middle of the body
    | BadGateway        // every permitted dial failed before a byte
    | Unavailable(portConflict: bool)
    | UpgradeForbidden

  datatype Target = Target(
    appName: string, componentName: string, serviceName: string, lbAlgorithm: string,
    instances: seq<Instance>, portConflict: bool)

  function TargetKey(t: Target): string {
    t.appName + "/" + t.componentName + "/" + t.serviceName
  }

  function Untried(instances: seq<Instance>, tried: set<string>): (r: seq<Instance>)
    ensures forall i :: i in r <==> i in instances && Addr(i) !in tried
  {
    if instances == [] then []
    else Untried(instances[..|instances| - 1], tried)
         + (if Addr(instances[|instances| - 1]) in tried then [] else [instances[|instances| - 1]])
  }

  /** What a further attempt may dial: with a single instance that one again, else only untried ones. */
  function Candidates(instances: seq<Instance>, tried: set<string>): (r: seq<Instance>)
    ensures forall i :: i in r ==> i in instances && (|instances| > 1 ==> Addr(i) !in tried)
    ensures r == [] && instances != [] ==> |instances| > 1 && Untried(instances, tried) == []
  {
    var untried := Untried(instances, tried);
    if untried == [] && |instances| == 1 then instances else untried
  }

  ghost function AddrSet(instances: seq<Instance>): set<string> {
    set i | i in instances :: Addr(i)
  }

  /** How many dials a request may use up before it is given up. */
  ghost function Budget(instances: seq<Instance>): nat {
    if |instances| == 1 then MAX_ATTEMPTS
    else if |AddrSet(instances)| < MAX_ATTEMPTS then |AddrSet(instances)| else MAX_ATTEMPTS
  }

  ghost predicate NoRepeats(dials: seq<string>) {
    forall i, j :: 0 <= i < j < |dials| ==> dials[i] != dials[j]
  }

  /** What the client may observe of one request. */
  ghost predicate Forwarded(instances: seq<Instance>, upstream: (nat, string) -> Outcome, reply: Reply, dials: seq<string>) {
    && |dials| <= Budget(instances)
    && (forall i :: 0 <= i < |dials| ==> dials[i] in AddrSet(instances))
    && (|instances| > 1 ==> NoRepeats(dials))
    && (forall i :: 0 <= i < |dials| - 1 ==> upstream(i, dials[i]) == FailedUnwritten)
    && match reply
       case Served => |dials| > 0 && upstream(|dials| - 1, dials[|dials| - 1]) == Answered
       case Truncated => |dials| > 0 && upstream(|dials| - 1, dials[|dials| - 1]) == FailedWritten
       case Dropped => |dials| > 0 && upstream(|dials| - 1, dials[|dials| - 1]) == Aborted
       case BadGateway => |dials| == Budget(instances) > 0
                          && upstream(|dials| - 1, dials[|dials| - 1]) == FailedUnwritten
       case Unavailable(_) => dials == [] && instances == []
       case UpgradeForbidden => dials == [] && instances != []
  }

  ghost predicate SameInFlight(v: View, w: View) {
    forall k, a :: Count(At(v, k).inflight, a) == Count(At(w, k).inflight, a)
  }

  /** Every count as found, but one more on the address of this target that was never released. */
  ghost predicate InFlightBut(v: View, w: View, key: string, leaked: Option<string>) {
    forall k, a :: Count(At(w, k).inflight, a) ==
                   Count(At(v, k).inflight, a) + (if leaked.Some? && k == key && a == leaked.value then 1 else 0)
  }

  ghost predicate SameSums(v: View, w: View) {
    forall k :: CounterSum(At(v, k).current) == CounterSum(At(w, k).current)
  }

  ghost predicate OnlyTouches(v: View, w: View, key: string) {
    forall k :: k != key ==> (k in v <==> k in w) && At(v, k) == At(w, k)
  }

  /** What a request leaves of the picker: counts as found but for a leak, counter sums as found, other
      targets untouched. */
  ghost predicate Balanced(v: View, w: View, key: string, leaked: Option<string>) {
    InFlightBut(v, w, key, leaked) && SameSums(v, w) && OnlyTouches(v, w, key)
  }

  /** An aborted dial never gives its acquire back. */
  function Leak(outcome: Outcome, addr: string): Option<string> {
    if outcome == Aborted then Some(addr) else None
  }

  /** The address whose dial cut the request off, if one did. */
  function LastLeak(upstream: (nat, string) -> Outcome, dials: seq<string>): Option<string> {
    if dials == [] then None else Leak(upstream(|dials| - 1, dials[|dials| - 1]), dials[|dials| - 1])
  }

  /** The counts are as found exactly when no dial was cut off. */
  lemma SameInFlightIff(v: View, w: View, key: string, leaked: Option<string>)
    requires Balanced(v, w, key, leaked)
    ensures SameInFlight(v, w) <==> leaked == None
  {
    match leaked
    case None => assert forall k, a :: Count(At(w, k).inflight, a) == Count(At(v, k).inflight, a);
    case Some(addr) => assert Count(At(w, key).inflight, addr) == Count(At(v, key).inflight, addr) + 1;
  }

  lemma PickLeavesBalance(p: Picker, v: View, w: View, key: string, alg: string, sticky: string,
                          insts: seq<Instance>, b: nat)
    requires w == v[key := At(w, key)]
    requires Picked(p.hash, alg, sticky, At(v, key), insts, b, At(w, key))
    ensures Balanced(v, w, key, None)
  {
    if IsRoundRobin(alg, sticky) {
      PickConserves(At(v, key).current, insts, b, At(w, key).current);
    }
  }

  lemma AcquireRelease(c: Counters, addr: string, a: string)
    requires Count(c.inflight, addr) >= 0
    ensures Count(Released(Acquired(c, addr), addr).inflight, a) == Count(c.inflight, a)
    ensures Released(Acquired(c, addr), addr).current == c.current
  {
  }

  lemma DialLeavesBalance(v: View, w: View, x: View, key: string, addr: string)
    requires NonNegative(v)
    requires w == v[key := Acquired(At(v, key), addr)]
    requires x == w[key := Released(At(w, key), addr)]
    ensures Balanced(v, x, key, None)
  {
    assert Count(At(v, key).inflight, addr) >= 0;
    assert At(w, key) == Acquired(At(v, key), addr);
    assert At(x, key) == Released(Acquired(At(v, key), addr), addr);
    forall k, a
      ensures Count(At(v, k).inflight, a) == Count(At(x, k).inflight, a)
      ensures At(v, k).current == At(x, k).current
    {
      AcquireRelease(At(v, key), addr, a);
      assert k != key ==> At(x, k) == At(v, k);
    }
  }

  lemma AcquireLeavesOneMore(v: View, w: View, key: string, addr: string)
    requires w == v[key := Acquired(At(v, key), addr)]
    ensures Balanced(v, w, key, Some(addr))
  {
    assert forall k :: k != key ==> At(w, k) == At(v, k);
    assert At(w, key) == Acquired(At(v, key), addr);
  }

  lemma BalanceChains(u: View, v: View, w: View, key: string, leaked: Option<string>)
    requires Balanced(u, v, key, None) && Balanced(v, w, key, leaked)
    ensures Balanced(u, w, key, leaked)
  {
  }

  /** Every dial so far failed before a byte; with more than one instance none was repeated. */
  ghost predicate Trying(instances: seq<Instance>, upstream: (nat, string) -> Outcome, dials: seq<string>, tried: set<string>) {
    && tried == (set a | a in dials)
    && |dials| <= Budget(instances)
    && (forall i :: 0 <= i < |dials| ==> dials[i] in AddrSet(instances))
    && (|instances| > 1 ==> NoRepeats(dials))
    && (forall i :: 0 <= i < |dials| ==> upstream(i, dials[i]) == FailedUnwritten)
  }

  lemma {:induction false} WithinBudget(instances: seq<Instance>, dials: seq<string>)
    requires instances != [] && |dials| <= MAX_ATTEMPTS
    requires forall i :: 0 <= i < |dials| ==> dials[i] in AddrSet(instances)
    requires |instances| > 1 ==> NoRepeats(dials)
    ensures |dials| <= Budget(instances)
  {
    if |instances| > 1 {
      DistinctCardinality(dials);
      SubsetCardinality((set a | a in dials), AddrSet(instances));
    }
  }

  lemma {:induction false} DistinctCardinality(dials: seq<string>)
    requires NoRepeats(dials)
    ensures |set a | a in dials| == |dials|
  {
    if dials != [] {
      var n := |dials| - 1;
      DistinctCardinality(dials[..n]);
      assert (set a | a in dials) == (set a | a in dials[..n]) + {dials[n]};
    }
  }

  lemma Exhausted(instances: seq<Instance>, upstream: (nat, string) -> Outcome, dials: seq<string>, tried: set<string>)
    requires Trying(instances, upstream, dials, tried) && |instances| > 1 && Untried(instances, tried) == []
    ensures |dials| == |AddrSet(instances)| > 0
  {
    forall a | a in AddrSet(instances)
      ensures a in tried
    {
      var i :| i in instances && a == Addr(i);
      assert i !in Untried(instances, tried);
    }
    assert tried == AddrSet(instances);
    DistinctCardinality(dials);
    assert Addr(instances[0]) in AddrSet(instances);
  }

  function ReplyTo(outcome: Outcome): Reply {
    match outcome
    case Answered => Served
    case FailedWritten => Truncated
    case Aborted => Dropped
    case FailedUnwritten => BadGateway
  }

  /** Dialling an untried candidate keeps the dials distinct and within the budget; a decisive
      outcome ends the request. */
  lemma OneMoreDial(instances: seq<Instance>, upstream: (nat, string) -> Outcome, dials: seq<string>,
                    tried: set<string>, instance: Instance, outcome: Outcome)
    requires Trying(instances, upstream, dials, tried) && |dials| < MAX_ATTEMPTS && instance in instances
    requires |instances| > 1 ==> Addr(instance) !in tried
    requires outcome == upstream(|dials|, Addr(instance))
    ensures LastLeak(upstream, dials + [Addr(instance)]) == Leak(outcome, Addr(instance))
    ensures outcome == FailedUnwritten ==> Trying(instances, upstream, dials + [Addr(instance)], tried + {Addr(instance)})
    ensures outcome != FailedUnwritten ==> Forwarded(instances, upstream, ReplyTo(outcome), dials + [Addr(instance)])
  {
    var dials' := dials + [Addr(instance)];
    assert forall a :: a in dials' <==> a in dials || a == Addr(instance);
    WithinBudget(instances, dials');
  }

  lemma GivenUp(instances: seq<Instance>, upstream: (nat, string) -> Outcome, dials: seq<string>, tried: set<string>)
    requires instances != [] && Trying(instances, upstream, dials, tried)
    requires |dials| == MAX_ATTEMPTS || (|instances| > 1 && Untried(instances, tried) == [])
    ensures Forwarded(instances, upstream, BadGateway, dials) && LastLeak(upstream, dials) == None
  {
    if |dials| < MAX_ATTEMPTS {
      Exhausted(instances, upstream, dials, tried);
    }
  }

  method Choose(p: Picker, key: string, alg: string, sticky: string, candidates: seq<Instance>)
    returns (instance: Instance)
    requires p.Valid() && candidates != []
    modifies p, p.stats.Values
    ensures p.Valid() && fresh(p.stats.Values - old(p.stats.Values))
    ensures instance in candidates
    ensures Balanced(old(p.Snapshot()), p.Snapshot(), key, None)
  {
    var pick := p.Pick(key, alg, sticky, candidates);
    instance := candidates[pick.value];
    if |candidates| >= 2 {
      PickLeavesBalance(p, old(p.Snapshot()), p.Snapshot(), key, alg, sticky, candidates, pick.value);
    }
  }

  /** The upstream call between Acquire and Release.  The release is a statement after the call, not a
      deferred one. */
  method Dial(p: Picker, key: string, addr: string, n: nat, upstream: (nat, string) -> Outcome)
    returns (outcome: Outcome)
    requires p.Valid()
    modifies p, p.stats.Values
    ensures p.Valid() && fresh(p.stats.Values - old(p.stats.Values))
    ensures outcome == upstream(n, addr)
    ensures Balanced(old(p.Snapshot()), p.Snapshot(), key, Leak(outcome, addr))
  {
    p.Acquire(key, addr);
    ghost var during := p.Snapshot();
    outcome := upstream(n, addr);
    if outcome == Aborted {
      AcquireLeavesOneMore(old(p.Snapshot()), during, key, addr);
      return;
    }
    p.Release(key, addr);
    DialLeavesBalance(old(p.Snapshot()), during, p.Snapshot(), key, addr);
  }

  /** One attempt: pick among the candidates, refuse an upgrade the domain forbids, dial. */
  method Attempt(p: Picker, t: Target, sticky: string, upgradeRefused: bool, candidates: seq<Instance>,
                 n: nat, upstream: (nat, string) -> Outcome, ghost start: View)
    returns (instance: Instance, outcome: Outcome)
    requires p.Valid() && candidates != []
    requires Balanced(start, p.Snapshot(), TargetKey(t), None)
    modifies p, p.stats.Values
    ensures p.Valid() && fresh(p.stats.Values - old(p.stats.Values))
    ensures instance in candidates
    ensures outcome == if upgradeRefused then FailedUnwritten else upstream(n, Addr(instance))
    ensures Balanced(start, p.Snapshot(), TargetKey(t), Leak(outcome, Addr(instance)))
  {
    instance := Choose(p, TargetKey(t), t.lbAlgorithm, sticky, candidates);
    ghost var picked := p.Snapshot();
    BalanceChains(start, old(p.Snapshot()), picked, TargetKey(t), None);
    if upgradeRefused {
      return instance, FailedUnwritten;
    }
    outcome := Dial(p, TargetKey(t), Addr(instance), n, upstream);
    BalanceChains(start, picked, p.Snapshot(), TargetKey(t), Leak(outcome, Addr(instance)));
  }

  method Forward(p: Picker, t: Target, sticky: string, upgradeRefused: bool, upstream: (nat, string) -> Outcome)
    returns (reply: Reply, dials: seq<string>)
    requires p.Valid()
    modifies p, p.stats.Values
    ensures p.Valid()
    ensures Forwarded(t.instances, upstream, reply, dials)
    ensures reply == UpgradeForbidden <==> upgradeRefused && t.instances != []
    ensures reply.Unavailable? ==> reply.portConflict == t.portConflict
    ensures Balanced(old(p.Snapshot()), p.Snapshot(), TargetKey(t), LastLeak(upstream, dials))
  {
    dials := [];
    if |t.instances| == 0 {
      return Unavailable(t.portConflict), [];
    }
    var tried: set<string> := {};
    ghost var start := p.Snapshot();
    for attempt := 0 to MAX_ATTEMPTS
      invariant p.Valid() && fresh(p.stats.Values - old(p.stats.Values))
      invariant |dials| == attempt && (attempt > 0 ==> !upgradeRefused)
      invariant Trying(t.instances, upstream, dials, tried)
      invariant Balanced(start, p.Snapshot(), TargetKey(t), None)
    {
      var candidates := Candidates(t.instances, tried);
      if |candidates| == 0 {
        break;
      }
      var instance, outcome := Attempt(p, t, sticky, upgradeRefused, candidates, attempt, upstream, start);
      if upgradeRefused {
        return UpgradeForbidden, [];
      }
      OneMoreDial(t.instances, upstream, dials, tried, instance, outcome);
      tried, dials := tried + {Addr(instance)}, dials + [Addr(instance)];
      if outcome != FailedUnwritten {
        return ReplyTo(outcome), dials;
      }
    }
    GivenUp(t.instances, upstream, dials, tried);
    reply := BadGateway;
  }

  /** Failover is as good as it can be: with distinct instances, a request is served whenever fewer
      than min(3, n) of them fail, whatever the algorithm and the order of the failures. */
  lemma ServedWhenFewFail(instances: seq<Instance>, upstream: (nat, string) -> Outcome, reply: Reply,
                          dials: seq<string>, bad: set<string>)
    requires instances != [] && DistinctAddresses(instances) && Forwarded(instances, upstream, reply, dials)
    requires reply != UpgradeForbidden
    requires forall n, a :: upstream(n, a) == (if a in bad then FailedUnwritten else Answered)
    requires |bad * AddrSet(instances)| < |instances| && |bad * AddrSet(instances)| < MAX_ATTEMPTS
    ensures reply == Served
  {
    AddrSetSize(instances);
    if reply == BadGateway {
      var tried := set a | a in dials;
      assert dials[0] in tried;
      if |instances| > 1 {
        DistinctCardinality(dials);
      }
      forall i | 0 <= i < |dials|
        ensures dials[i] in bad * AddrSet(instances)
      {
        assert upstream(i, dials[i]) == FailedUnwritten;
      }
      SubsetCardinality(tried, bad * AddrSet(instances));
    }
  }

  lemma {:induction false} AddrSetSize(instances: seq<Instance>)
    requires DistinctAddresses(instances)
    ensures |AddrSet(instances)| == |instances|
  {
    if instances != [] {
      var n := |instances| - 1;
      AddrSetSize(instances[..n]);
      assert AddrSet(instances) == AddrSet(instances[..n]) + {Addr(instances[n])};
    }
  }
}
