/** In-flight counting under every interleaving of requests and refreshes.

    Acquire and Release each take the picker's lock to find the target's state and then that
    state's own lock to change it; a refresh may run Forget between the two.  The machine below
    keeps the two halves apart: a state that was dropped in between is still written to, but is
    no longer the one the picker finds.  A request whose response breaks off half-way never gets to
    its Release.
  */
module InFlight {
  import opened Arithmetic
  import opened Registry
  import opened LoadBalancer

  type StateId = nat

  /** Where one request is: which state its Acquire found, and which one its Release found. */
  datatype Request =
    | Waiting(key: string, addr: string)
    | AcquireFound(key: string, addr: string, on: StateId)
    | Open(key: string, addr: string, on: StateId)
    | ReleaseFound(key: string, addr: string, on: StateId, off: StateId)
    | Abandoned(key: string, addr: string, on: StateId)
    | Closed

  /** `forgotten` only records the keys some Forget has dropped. */
  datatype Machine = Machine(
    stats: map<string, StateId>,
    counts: map<StateId, map<string, int>>,
    next: StateId,
    requests: map<nat, Request>,
    forgotten: set<string>)

  datatype Event =
    | Pick(key: string)
    | Arrive(r: nat, key: string, addr: string)
    | FindForAcquire(r: nat)
    | ApplyAcquire(r: nat)
    | FindForRelease(r: nat)
    | ApplyRelease(r: nat)
    | Abort(r: nat)
    | Forget(live: set<string>)

  ghost const START := Machine(map[], map[], 0, map[], {})

  /** The picker's find-or-create. */
  ghost function Found(m: Machine, key: string): Machine {
    if key in m.stats then m
    else m.(stats := m.stats[key := m.next], counts := m.counts[m.next := map[]], next := m.next + 1)
  }

  ghost predicate Enabled(m: Machine, e: Event) {
    match e
    case Pick(_) => true
    case Arrive(r, _, _) => r !in m.requests
    case FindForAcquire(r) => r in m.requests && m.requests[r].Waiting?
    case ApplyAcquire(r) => r in m.requests && m.requests[r].AcquireFound? && m.requests[r].on in m.counts
    case FindForRelease(r) => r in m.requests && m.requests[r].Open?
    case ApplyRelease(r) => r in m.requests && m.requests[r].ReleaseFound? && m.requests[r].off in m.counts
    case Abort(r) => r in m.requests && m.requests[r].Open?
    case Forget(_) => true
  }

  ghost function Step(m: Machine, e: Event): Machine
    requires Enabled(m, e)
  {
    match e
    case Pick(key) =>
      Found(m, key)
    case Arrive(r, key, addr) =>
      m.(requests := m.requests[r := Waiting(key, addr)])
    case FindForAcquire(r) =>
      var q := m.requests[r];
      var f := Found(m, q.key);
      f.(requests := f.requests[r := AcquireFound(q.key, q.addr, f.stats[q.key])])
    case ApplyAcquire(r) =>
      var q := m.requests[r];
      var c := m.counts[q.on];
      m.(counts := m.counts[q.on := c[q.addr := Count(c, q.addr) + 1]],
         requests := m.requests[r := Open(q.key, q.addr, q.on)])
    case FindForRelease(r) =>
      var q := m.requests[r];
      var f := Found(m, q.key);
      f.(requests := f.requests[r := ReleaseFound(q.key, q.addr, q.on, f.stats[q.key])])
    case ApplyRelease(r) =>
      var q := m.requests[r];
      var c := m.counts[q.off];
      m.(counts := m.counts[q.off := if Count(c, q.addr) > 0 then c[q.addr := c[q.addr] - 1] else c],
         requests := m.requests[r := Closed])
    case Abort(r) =>
      var q := m.requests[r];
      m.(requests := m.requests[r := Abandoned(q.key, q.addr, q.on)])
    case Forget(live) =>
      m.(stats := map k | k in m.stats && k in live :: m.stats[k],
         forgotten := m.forgotten + (m.stats.Keys - live))
  }

  ghost predicate Counted(q: Request, key: string, addr: string) {
    (q.Open? || q.ReleaseFound? || q.Abandoned?) && q.key == key && q.addr == addr
  }

  /** The requests actually between their Acquire and their Release. */
  ghost function OpenRequests(m: Machine, key: string, addr: string): set<nat> {
    set r | r in m.requests && Counted(m.requests[r], key, addr) && !m.requests[r].Abandoned?
  }

  /** The requests that ended after their Acquire and will never come to a Release. */
  ghost function AbandonedRequests(m: Machine, key: string, addr: string): set<nat> {
    set r | r in m.requests && Counted(m.requests[r], key, addr) && m.requests[r].Abandoned?
  }

  /** What least_conn goes by, if nobody was forgotten. */
  ghost function Load(m: Machine, key: string, addr: string): nat {
    |OpenRequests(m, key, addr)| + |AbandonedRequests(m, key, addr)|
  }

  /** Those among both whose Acquire was applied to one particular state. */
  ghost function HeldOn(m: Machine, key: string, addr: string, id: StateId): set<nat> {
    set r | r in m.requests && HoldsOn(m, r, key, addr, id)
  }

  ghost predicate HoldsOn(m: Machine, r: nat, key: string, addr: string, id: StateId) {
    r in m.requests && Counted(m.requests[r], key, addr) && m.requests[r].on == id
  }

  ghost predicate KnownIds(m: Machine) {
    && (forall k :: k in m.stats ==> m.stats[k] in m.counts)
    && (forall k, l :: k in m.stats && l in m.stats && m.stats[k] == m.stats[l] ==> k == l)
    && (forall i :: i in m.counts ==> i < m.next)
  }

  ghost predicate RequestOk(m: Machine, q: Request) {
    match q
    case Waiting(_, _) => true
    case Closed => true
    case AcquireFound(k, _, on) => on in m.counts && Owned(m, k, on)
    case Open(k, _, on) => on in m.counts && Owned(m, k, on)
    case Abandoned(k, _, on) => on in m.counts && Owned(m, k, on)
    case ReleaseFound(k, _, on, off) =>
      && on in m.counts && off in m.counts && Owned(m, k, on) && Owned(m, k, off)
      && (k in m.stats && m.stats[k] == on ==> off == on)
  }

  /** A state some request of target k found is nobody else's, and is the current one unless k was forgotten. */
  ghost predicate Owned(m: Machine, k: string, id: StateId) {
    && (forall l :: l in m.stats && m.stats[l] == id ==> l == k)
    && (k !in m.forgotten ==> k in m.stats && m.stats[k] == id)
  }

  ghost predicate NeverNegative(m: Machine) {
    forall i, a :: i in m.counts && a in m.counts[i] ==> m.counts[i][a] >= 0
  }

  /** A stored count never exceeds the requests it stands for, and is exact unless the key was forgotten. */
  ghost predicate BoundedAt(m: Machine, k: string, a: string)
    requires k in m.stats && m.stats[k] in m.counts
  {
    var c := Count(m.counts[m.stats[k]], a);
    var held := |HeldOn(m, k, a, m.stats[k])|;
    c <= held && (k !in m.forgotten ==> c == held)
  }

  ghost predicate Bounded(m: Machine)
    requires KnownIds(m)
  {
    forall k, a :: k in m.stats ==> BoundedAt(m, k, a)
  }

  ghost predicate Inv(m: Machine) {
    && KnownIds(m)
    && (forall r :: r in m.requests ==> RequestOk(m, m.requests[r]))
    && NeverNegative(m)
    && Bounded(m)
  }

  lemma HeldSame(m: Machine, n: Machine, k: string, a: string, id: StateId)
    requires forall r :: HoldsOn(m, r, k, a, id) <==> HoldsOn(n, r, k, a, id)
    ensures HeldOn(m, k, a, id) == HeldOn(n, k, a, id)
  {
  }

  /** A fresh state holds nobody. */
  lemma FoundKeeps(m: Machine, key: string)
    requires Inv(m)
    ensures Inv(Found(m, key)) && key in Found(m, key).stats
    ensures forall k :: k in m.stats ==> k in Found(m, key).stats && Found(m, key).stats[k] == m.stats[k]
  {
    var f := Found(m, key);
    if key !in m.stats {
      forall r | r in f.requests
        ensures RequestOk(f, f.requests[r])
      {
        assert RequestOk(m, m.requests[r]);
      }
      forall k, a | k in f.stats
        ensures BoundedAt(f, k, a)
      {
        if k == key {
          forall r | r in f.requests
            ensures r !in HeldOn(f, k, a, m.next)
          {
            assert RequestOk(m, m.requests[r]);
          }
          assert HeldOn(f, k, a, m.next) == {};
        } else {
          assert BoundedAt(m, k, a);
          HeldSame(m, f, k, a, m.stats[k]);
        }
      }
    }
  }

  lemma SameHolders(m: Machine, n: Machine)
    requires Inv(m) && n.stats == m.stats && n.counts == m.counts && n.next == m.next && n.forgotten == m.forgotten
    requires forall k, a, r, id :: HoldsOn(m, r, k, a, id) <==> HoldsOn(n, r, k, a, id)
    ensures Bounded(n)
  {
    forall k, a | k in n.stats
      ensures BoundedAt(n, k, a)
    {
      assert BoundedAt(m, k, a);
      HeldSame(m, n, k, a, m.stats[k]);
    }
  }

  lemma RequestsStayOk(m: Machine, e: Event)
    requires Inv(m) && Enabled(m, e) && (e.ApplyAcquire? || e.ApplyRelease?)
    ensures forall x :: x in Step(m, e).requests ==> RequestOk(Step(m, e), Step(m, e).requests[x])
  {
    var n := Step(m, e);
    forall x | x in n.requests
      ensures RequestOk(n, n.requests[x])
    {
      assert RequestOk(m, m.requests[x]);
    }
  }

  lemma AcquireKeeps(m: Machine, r: nat)
    requires Inv(m) && Enabled(m, ApplyAcquire(r))
    ensures Inv(Step(m, ApplyAcquire(r)))
  {
    var n, q := Step(m, ApplyAcquire(r)), m.requests[r];
    RequestsStayOk(m, ApplyAcquire(r));
    forall k, a | k in n.stats
      ensures BoundedAt(n, k, a)
    {
      assert BoundedAt(m, k, a);
      if n.stats[k] == q.on && a == q.addr {
        assert RequestOk(m, q);
        assert HeldOn(n, k, a, q.on) == HeldOn(m, k, a, q.on) + {r};
      } else {
        HeldSame(m, n, k, a, n.stats[k]);
      }
    }
  }

  lemma ReleaseKeeps(m: Machine, r: nat)
    requires Inv(m) && Enabled(m, ApplyRelease(r))
    ensures Inv(Step(m, ApplyRelease(r)))
  {
    var n := Step(m, ApplyRelease(r));
    RequestsStayOk(m, ApplyRelease(r));
    forall k, a | k in n.stats
      ensures BoundedAt(n, k, a)
    {
      ReleaseKeepsAt(m, r, k, a);
    }
  }

  lemma ReleaseKeepsAt(m: Machine, r: nat, k: string, a: string)
    requires Inv(m) && Enabled(m, ApplyRelease(r)) && k in m.stats
    ensures BoundedAt(Step(m, ApplyRelease(r)), k, a)
  {
    var n, q := Step(m, ApplyRelease(r)), m.requests[r];
    assert BoundedAt(m, k, a) && RequestOk(m, q);
    if k == q.key && a == q.addr && n.stats[k] == q.on {
      assert r in HeldOn(m, k, a, q.on);
      assert HeldOn(n, k, a, q.on) == HeldOn(m, k, a, q.on) - {r};
    } else {
      HeldSame(m, n, k, a, n.stats[k]);
    }
  }

  lemma ForgetKeeps(m: Machine, live: set<string>)
    requires Inv(m)
    ensures Inv(Step(m, Forget(live)))
  {
    var n := Step(m, Forget(live));
    forall x | x in n.requests
      ensures RequestOk(n, n.requests[x])
    {
      assert RequestOk(m, m.requests[x]);
    }
    forall k, a | k in n.stats
      ensures BoundedAt(n, k, a)
    {
      assert BoundedAt(m, k, a);
      HeldSame(m, n, k, a, m.stats[k]);
    }
  }

  lemma FindKeeps(m: Machine, e: Event)
    requires Inv(m) && Enabled(m, e) && (e.FindForAcquire? || e.FindForRelease?)
    ensures Inv(Step(m, e))
  {
    var q := m.requests[e.r];
    var f, n := Found(m, q.key), Step(m, e);
    FoundKeeps(m, q.key);
    assert RequestOk(f, f.requests[e.r]);
    forall x | x in n.requests
      ensures RequestOk(n, n.requests[x])
    {
      assert x != e.r ==> RequestOk(f, f.requests[x]);
    }
    SameHolders(f, n);
  }

  lemma AbortKeeps(m: Machine, r: nat)
    requires Inv(m) && Enabled(m, Abort(r))
    ensures Inv(Step(m, Abort(r)))
  {
    var n := Step(m, Abort(r));
    forall x | x in n.requests
      ensures RequestOk(n, n.requests[x])
    {
      assert RequestOk(m, m.requests[x]);
    }
    SameHolders(m, n);
  }

  lemma StepKeeps(m: Machine, e: Event)
    requires Inv(m) && Enabled(m, e)
    ensures Inv(Step(m, e))
  {
    match e
    case Pick(key) => FoundKeeps(m, key);
    case Arrive(r, key, addr) =>
      var n := Step(m, e);
      forall x | x in n.requests
        ensures RequestOk(n, n.requests[x])
      {
        assert x != r ==> RequestOk(m, m.requests[x]);
      }
      SameHolders(m, n);
    case FindForAcquire(r) => FindKeeps(m, e);
    case FindForRelease(r) => FindKeeps(m, e);
    case ApplyAcquire(r) => AcquireKeeps(m, r);
    case ApplyRelease(r) => ReleaseKeeps(m, r);
    case Abort(r) => AbortKeeps(m, r);
    case Forget(live) => ForgetKeeps(m, live);
  }

  ghost predicate Execution(ms: seq<Machine>, es: seq<Event>) {
    && |ms| == |es| + 1 && ms[0] == START
    && forall i {:trigger es[i]} :: 0 <= i < |es| ==> Enabled(ms[i], es[i]) && ms[i + 1] == Step(ms[i], es[i])
  }

  lemma {:induction false} Reachable(ms: seq<Machine>, es: seq<Event>, n: nat)
    requires Execution(ms, es) && n <= |es|
    ensures Inv(ms[n])
  {
    if n > 0 {
      Reachable(ms, es, n - 1);
      assert ms[n] == Step(ms[n - 1], es[n - 1]);
      StepKeeps(ms[n - 1], es[n - 1]);
    }
  }

  /** In every execution the count the picker would read is never negative and never above the
      requests really open and those abandoned, and it is their sum for a target that was never
      forgotten. */
  lemma CountsAreSound(ms: seq<Machine>, es: seq<Event>, n: nat, key: string, addr: string)
    requires Execution(ms, es) && n <= |es| && key in ms[n].stats
    ensures ms[n].stats[key] in ms[n].counts
    ensures var c := Count(ms[n].counts[ms[n].stats[key]], addr);
            && 0 <= c <= Load(ms[n], key, addr)
            && (key !in ms[n].forgotten ==> c == Load(ms[n], key, addr))
  {
    Reachable(ms, es, n);
    assert BoundedAt(ms[n], key, addr) && NeverNegative(ms[n]);
    HeldIsLoad(ms[n], key, addr);
  }

  lemma HeldIsLoad(m: Machine, key: string, addr: string)
    requires KnownIds(m) && key in m.stats && forall r :: r in m.requests ==> RequestOk(m, m.requests[r])
    ensures |HeldOn(m, key, addr, m.stats[key])| <= Load(m, key, addr)
    ensures key !in m.forgotten ==> |HeldOn(m, key, addr, m.stats[key])| == Load(m, key, addr)
  {
    var held, open, left := HeldOn(m, key, addr, m.stats[key]), OpenRequests(m, key, addr), AbandonedRequests(m, key, addr);
    assert open !! left;
    SubsetCardinality(held, open + left);
    if key !in m.forgotten {
      forall r | r in open + left
        ensures r in held
      {
        assert RequestOk(m, m.requests[r]);
      }
      assert held == open + left;
    }
  }

  /** The count is that of the requests really open exactly when no request was abandoned there. */
  lemma ExactIffNoneAbandoned(ms: seq<Machine>, es: seq<Event>, n: nat, key: string, addr: string)
    requires Execution(ms, es) && n <= |es| && key in ms[n].stats && key !in ms[n].forgotten
    requires ms[n].stats[key] in ms[n].counts
    ensures Count(ms[n].counts[ms[n].stats[key]], addr) == |OpenRequests(ms[n], key, addr)| <==>
              AbandonedRequests(ms[n], key, addr) == {}
  {
    CountsAreSound(ms, es, n, key, addr);
  }

  /** An abandoned request stays so. */
  lemma {:induction false} AbandonedForGood(ms: seq<Machine>, es: seq<Event>, n: nat, m: nat, key: string, addr: string)
    requires Execution(ms, es) && n <= m <= |es|
    ensures AbandonedRequests(ms[n], key, addr) <= AbandonedRequests(ms[m], key, addr)
  {
    if n < m {
      AbandonedForGood(ms, es, n, m - 1, key, addr);
      assert ms[m] == Step(ms[m - 1], es[m - 1]);
    }
  }

  /** So least_conn on such a target picks an instance with the fewest requests open or abandoned,
      which are the requests really open if none was ever abandoned. */
  lemma LeastConnIsLeastLoaded(ms: seq<Machine>, es: seq<Event>, n: nat, key: string,
                               insts: seq<Instance>, b: nat, i: nat)
    requires Execution(ms, es) && n <= |es|
    requires key in ms[n].stats && key !in ms[n].forgotten && ms[n].stats[key] in ms[n].counts
    requires LeastConnPick(ms[n].counts[ms[n].stats[key]], insts, b, |insts|) && i < |insts|
    ensures Load(ms[n], key, Addr(insts[b])) <= Load(ms[n], key, Addr(insts[i]))
    ensures AbandonedRequests(ms[n], key, Addr(insts[i])) == {} ==>
              |OpenRequests(ms[n], key, Addr(insts[b]))| <= |OpenRequests(ms[n], key, Addr(insts[i]))|
  {
    CountsAreSound(ms, es, n, key, Addr(insts[b]));
    CountsAreSound(ms, es, n, key, Addr(insts[i]));
    assert !Preferred(ms[n].counts[ms[n].stats[key]], insts[i], insts[b]);
  }

  /** A new request's way to its open connection. */
  lemma Opens(m: Machine, r: nat, key: string, addr: string) returns (a: Machine, b: Machine, c: Machine)
    requires r !in m.requests && (key in m.stats ==> m.stats[key] in m.counts)
    ensures Enabled(m, Arrive(r, key, addr)) && a == Step(m, Arrive(r, key, addr))
    ensures Enabled(a, FindForAcquire(r)) && b == Step(a, FindForAcquire(r))
    ensures Enabled(b, ApplyAcquire(r)) && c == Step(b, ApplyAcquire(r))
    ensures var f := Found(m, key);
            && c.stats == f.stats && c.forgotten == m.forgotten
            && c.requests == m.requests[r := Open(key, addr, f.stats[key])]
            && c.counts == f.counts[f.stats[key] := f.counts[f.stats[key]][addr := Count(f.counts[f.stats[key]], addr) + 1]]
  {
    a := Step(m, Arrive(r, key, addr));
    b := Step(a, FindForAcquire(r));
    c := Step(b, ApplyAcquire(r));
  }

  /** One request that broke off on instance j: least_conn takes instance i, which is at work, although
      j is idle. */
  lemma IdleIsPassedOver(key: string, i: Instance, j: Instance) returns (ms: seq<Machine>, es: seq<Event>)
    requires Addr(i) != Addr(j) && WeightOf(i) >= WeightOf(j)
    ensures Execution(ms, es)
    ensures var m := ms[|es|];
            && key in m.stats && key !in m.forgotten && m.stats[key] in m.counts
            && LeastConnPick(m.counts[m.stats[key]], [i, j], 0, 2)
            && |OpenRequests(m, key, Addr(i))| == 1 && |OpenRequests(m, key, Addr(j))| == 0
  {
    var a, b, c := Opens(START, 0, key, Addr(j));
    var d := Step(c, Abort(0));
    var e, f, g := Opens(d, 1, key, Addr(i));
    ms := [START, a, b, c, d, e, f, g];
    es := [Arrive(0, key, Addr(j)), FindForAcquire(0), ApplyAcquire(0), Abort(0),
           Arrive(1, key, Addr(i)), FindForAcquire(1), ApplyAcquire(1)];
    assert g.requests == map[0 := Abandoned(key, Addr(j), 0), 1 := Open(key, Addr(i), 0)];
    assert g.counts[0] == map[Addr(j) := 1, Addr(i) := 1];
    PassedOver(g, key, i, j);
  }

  lemma PassedOver(m: Machine, key: string, i: Instance, j: Instance)
    requires Addr(i) != Addr(j) && WeightOf(i) >= WeightOf(j)
    requires m.requests == map[0 := Abandoned(key, Addr(j), 0), 1 := Open(key, Addr(i), 0)]
    requires 0 in m.counts && m.counts[0] == map[Addr(j) := 1, Addr(i) := 1]
    ensures LeastConnPick(m.counts[0], [i, j], 0, 2)
    ensures |OpenRequests(m, key, Addr(i))| == 1 && |OpenRequests(m, key, Addr(j))| == 0
  {
    assert OpenRequests(m, key, Addr(i)) == {1};
    assert OpenRequests(m, key, Addr(j)) == {};
  }
}
