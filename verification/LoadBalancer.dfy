/** Instance selection: the picker's per-target counters and its four algorithms.

    Weights are reals, so rounding of float64 weights is not modelled.  Go's map read of an
    absent key yields zero; `Value` and `Count` say so.
  */
module LoadBalancer {
  import opened Registry

  type Currents = map<string, real>

  function WeightOf(i: Instance): (w: real)
    ensures w > 0.0
  {
    if i.weight <= 0.0 then 1.0 else i.weight
  }

  function Value(m: Currents, a: string): real {
    if a in m then m[a] else 0.0
  }

  function Count(m: map<string, int>, a: string): int {
    if a in m then m[a] else 0
  }

  /** What the first n entries of a candidate list add to the counter of address a. */
  ghost function Gain(insts: seq<Instance>, a: string, n: nat): real
    requires n <= |insts|
  {
    if n == 0 then 0.0
    else Gain(insts, a, n - 1) + (if Addr(insts[n - 1]) == a then WeightOf(insts[n - 1]) else 0.0)
  }

  ghost function TotalWeight(insts: seq<Instance>, n: nat): real
    requires n <= |insts|
  {
    if n == 0 then 0.0 else TotalWeight(insts, n - 1) + WeightOf(insts[n - 1])
  }

  /** The counter the scan compares at entry i: the stored value plus every weight its address
      has gained so far.  With distinct addresses that is the stored value plus its own weight. */
  ghost function Score(cur: Currents, insts: seq<Instance>, i: nat): real
    requires i < |insts|
  {
    Value(cur, Addr(insts[i])) + Gain(insts, Addr(insts[i]), i + 1)
  }

  /** Entry b is the first maximum among the scores of the first n entries. */
  ghost predicate FirstBest(cur: Currents, insts: seq<Instance>, b: nat, n: nat)
    requires b < n <= |insts|
  {
    && (forall i :: 0 <= i < n ==> Score(cur, insts, i) <= Score(cur, insts, b))
    && (forall i :: 0 <= i < b ==> Score(cur, insts, i) < Score(cur, insts, b))
  }

  ghost function Addrs(insts: seq<Instance>, n: nat): set<string>
    requires n <= |insts|
  {
    if n == 0 then {} else Addrs(insts, n - 1) + {Addr(insts[n - 1])}
  }

  /** The counters after the first n entries have gained their weights. */
  ghost predicate Gained(cur: Currents, insts: seq<Instance>, n: nat, cur': Currents)
    requires n <= |insts|
  {
    && cur'.Keys == cur.Keys + Addrs(insts, n)
    && forall a :: Value(cur', a) == Value(cur, a) + Gain(insts, a, n)
  }

  lemma GainStep(cur: Currents, insts: seq<Instance>, n: nat, mid: Currents)
    requires n < |insts| && Gained(cur, insts, n, mid)
    ensures var a := Addr(insts[n]);
            var next := mid[a := Value(mid, a) + WeightOf(insts[n])];
            && Gained(cur, insts, n + 1, next)
            && next[a] == Score(cur, insts, n)
  {
    var a := Addr(insts[n]);
    var next := mid[a := Value(mid, a) + WeightOf(insts[n])];
    forall b
      ensures Value(next, b) == Value(cur, b) + Gain(insts, b, n + 1)
    {
      assert Value(mid, b) == Value(cur, b) + Gain(insts, b, n);
    }
  }

  /** One round: everybody gains its weight, the first highest wins and gives the total back. */
  ghost predicate RoundRobinPick(cur: Currents, insts: seq<Instance>, b: nat, cur': Currents) {
    && b < |insts|
    && FirstBest(cur, insts, b, |insts|)
    && (forall a :: Value(cur', a) == Value(cur, a) + Gain(insts, a, |insts|)
                       - (if a == Addr(insts[b]) then TotalWeight(insts, |insts|) else 0.0))
    && cur'.Keys == cur.Keys + Addrs(insts, |insts|)
  }

  lemma GiveBack(cur: Currents, insts: seq<Instance>, b: nat, mid: Currents)
    requires b < |insts| && Gained(cur, insts, |insts|, mid) && FirstBest(cur, insts, b, |insts|)
    ensures var a := Addr(insts[b]);
            RoundRobinPick(cur, insts, b, mid[a := Value(mid, a) - TotalWeight(insts, |insts|)])
  {
    AddrsContain(insts, |insts|, b);
  }

  lemma {:induction false} AddrsContain(insts: seq<Instance>, n: nat, i: nat)
    requires i < n <= |insts|
    ensures Addr(insts[i]) in Addrs(insts, n)
  {
    if i < n - 1 {
      AddrsContain(insts, n - 1, i);
    }
  }

  /** Entry x is preferred to entry y by least_conn: fewer connections, then more weight. */
  ghost predicate Preferred(inflight: map<string, int>, x: Instance, y: Instance) {
    || Count(inflight, Addr(x)) < Count(inflight, Addr(y))
    || (Count(inflight, Addr(x)) == Count(inflight, Addr(y)) && WeightOf(x) > WeightOf(y))
  }

  /** The first entry to which no other entry is preferred, and which beats every earlier one. */
  ghost predicate LeastConnPick(inflight: map<string, int>, insts: seq<Instance>, b: nat, n: nat)
    requires n <= |insts|
  {
    && b < n
    && (forall i :: 0 <= i < n ==> !Preferred(inflight, insts[i], insts[b]))
    && (forall i :: 0 <= i < b ==> Preferred(inflight, insts[b], insts[i]))
  }

  /** The counters of one target. */
  datatype Counters = Counters(current: Currents, inflight: map<string, int>)

  type View = map<string, Counters>

  function At(v: View, key: string): Counters {
    if key in v then v[key] else Counters(map[], map[])
  }

  ghost predicate NonNegative(v: View) {
    forall k, a :: k in v && a in v[k].inflight ==> v[k].inflight[a] >= 0
  }

  lemma UpdateTwice(v: View, key: string, c: Counters, d: Counters)
    ensures v[key := c][key := d] == v[key := d]
  {
  }

  ghost predicate IsRoundRobin(alg: string, sticky: string) {
    alg != "ip_hash" && alg != "least_conn" && (alg == "cookie_sticky" ==> sticky == "")
  }

  /** What one call of Pick decides on two or more instances, and what it leaves behind. */
  ghost predicate Picked(hash: string -> nat, alg: string, sticky: string, c: Counters,
                         insts: seq<Instance>, b: nat, c': Counters)
  {
    && b < |insts|
    && c'.inflight == c.inflight
    && (IsRoundRobin(alg, sticky) ==> RoundRobinPick(c.current, insts, b, c'.current))
    && (!IsRoundRobin(alg, sticky) ==> c'.current == c.current)
    && (alg == "least_conn" ==> LeastConnPick(c.inflight, insts, b, |insts|))
    && (!IsRoundRobin(alg, sticky) && alg != "least_conn" ==> b == hash(sticky) % |insts|)
  }

  class LbState {
    var current: Currents
    var inflight: map<string, int>

    constructor ()
      ensures current == map[] && inflight == map[]
    {
      current := map[];
      inflight := map[];
    }
  }

  /** The source hashes the sticky key with FNV-1a, a library function; it is the field `hash`. */
  class Picker {
    var stats: map<string, LbState>
    const hash: string -> nat

    ghost predicate Valid()
      reads this, stats.Values
    {
      && (forall k, l :: k in stats && l in stats && k != l ==> stats[k] != stats[l])
      && NonNegative(Snapshot())
    }

    ghost function Snapshot(): View
      reads this, stats.Values
    {
      map k | k in stats :: Counters(stats[k].current, stats[k].inflight)
    }

    constructor (hash: string -> nat)
      ensures Valid() && Snapshot() == map[] && this.hash == hash
    {
      stats := map[];
      this.hash := hash;
    }

    method State(key: string) returns (s: LbState)
      requires Valid()
      modifies this
      ensures Valid() && key in stats && s == stats[key]
      ensures key in old(stats) ==> stats == old(stats)
      ensures key !in old(stats) ==> fresh(s) && stats == old(stats)[key := s]
      ensures Counters(s.current, s.inflight) == At(old(Snapshot()), key)
      ensures Snapshot() == old(Snapshot())[key := At(old(Snapshot()), key)]
    {
      if key in stats {
        s := stats[key];
      } else {
        s := new LbState();
        stats := stats[key := s];
      }
      assert Snapshot() == old(Snapshot())[key := At(old(Snapshot()), key)];
    }

    /** Drops every target that no longer resolves; the others keep their counters untouched. */
    method Forget(live: set<string>)
      requires Valid()
      modifies this
      ensures Valid()
      ensures Snapshot() == map k | k in old(Snapshot()) && k in live :: old(Snapshot())[k]
    {
      stats := map k | k in stats && k in live :: stats[k];
      assert forall k :: k in Snapshot() ==> k in old(Snapshot()) && Snapshot()[k] == old(Snapshot())[k];
    }

    /** Only the state of one target has changed since. */
    twostate predicate OnlyChanged(key: string)
      reads this, stats.Values
    {
      && stats == old(stats) && key in stats
      && forall k :: k in stats && k != key ==>
           stats[k].current == old(stats[k].current) && stats[k].inflight == old(stats[k].inflight)
    }

    twostate lemma SnapshotChanged(key: string)
      requires OnlyChanged(key)
      ensures Snapshot() == old(Snapshot())[key := Counters(stats[key].current, stats[key].inflight)]
    {
      var v, w := Snapshot(), old(Snapshot());
      assert v.Keys == w.Keys == stats.Keys;
      forall k | k in stats && k != key
        ensures v[k] == w[k]
      {
        assert v[k] == Counters(stats[k].current, stats[k].inflight);
        assert w[k] == Counters(old(stats[k].current), old(stats[k].inflight));
      }
    }

    method Pick(key: string, alg: string, sticky: string, instances: seq<Instance>) returns (r: Option<nat>)
      requires Valid()
      modifies this, stats.Values
      ensures Valid() && fresh(stats.Values - old(stats.Values))
      ensures |instances| == 0 ==> r == None && Snapshot() == old(Snapshot())
      ensures |instances| == 1 ==> r == Some(0) && Snapshot() == old(Snapshot())
      ensures |instances| >= 2 ==>
                && r.Some?
                && Snapshot() == old(Snapshot())[key := At(Snapshot(), key)]
                && Picked(hash, alg, sticky, At(old(Snapshot()), key), instances, r.value, At(Snapshot(), key))
    {
      if |instances| == 0 {
        return None;
      }
      if |instances| == 1 {
        return Some(0);
      }
      ghost var before := Snapshot();
      var s := State(key);
      label found:
      var best := Choose(s, alg, sticky, instances);
      SnapshotChanged@found(key);
      UpdateTwice(before, key, At(before, key), Counters(s.current, s.inflight));
      r := Some(best);
    }

    /** The algorithm switch of Pick, run under the target's own lock. */
    method Choose(s: LbState, alg: string, sticky: string, instances: seq<Instance>) returns (best: nat)
      requires |instances| >= 2
      requires forall a :: a in s.inflight ==> s.inflight[a] >= 0
      modifies s`current
      ensures Picked(hash, alg, sticky, Counters(old(s.current), s.inflight), instances, best,
                     Counters(s.current, s.inflight))
    {
      if alg == "ip_hash" {
        best := hash(sticky) % |instances|;
      } else if alg == "least_conn" {
        best := LeastConn(s.inflight, instances);
      } else if alg == "cookie_sticky" && sticky != "" {
        best := hash(sticky) % |instances|;
      } else {
        best := PickRoundRobin(s, instances);
      }
    }

    /** The running best of the least_conn branch, -1 connections meaning "none seen yet". */
    static method LeastConn(inflight: map<string, int>, instances: seq<Instance>) returns (best: nat)
      requires |instances| > 0
      requires forall a :: a in inflight ==> inflight[a] >= 0
      ensures LeastConnPick(inflight, instances, best, |instances|)
    {
      best := 0;
      var bestConns := -1;
      for i := 0 to |instances|
        invariant i == 0 ==> best == 0 && bestConns == -1
        invariant i > 0 ==> LeastConnPick(inflight, instances, best, i)
        invariant i > 0 ==> bestConns == Count(inflight, Addr(instances[best]))
      {
        var conns := Count(inflight, Addr(instances[i]));
        if bestConns < 0 || conns < bestConns
           || (conns == bestConns && WeightOf(instances[i]) > WeightOf(instances[best]))
        {
          best, bestConns := i, conns;
        }
      }
    }

    method PickRoundRobin(s: LbState, instances: seq<Instance>) returns (pick: nat)
      requires |instances| > 0
      modifies s`current
      ensures RoundRobinPick(old(s.current), instances, pick, s.current)
    {
      var total := 0.0;
      var best, bestCurrent := -1, -1.0;
      ghost var cur := s.current;
      for i := 0 to |instances|
        invariant i == 0 ==> best == -1
        invariant total == TotalWeight(instances, i)
        invariant Gained(cur, instances, i, s.current)
        invariant i > 0 ==> 0 <= best < i && FirstBest(cur, instances, best, i)
        invariant i > 0 ==> bestCurrent == Score(cur, instances, best)
      {
        var w := WeightOf(instances[i]);
        var a := Addr(instances[i]);
        GainStep(cur, instances, i, s.current);
        total := total + w;
        s.current := s.current[a := Value(s.current, a) + w];
        if s.current[a] > bestCurrent || best < 0 {
          best, bestCurrent := i, s.current[a];
        }
      }
      pick := best;
      GiveBack(cur, instances, best, s.current);
      var a := Addr(instances[best]);
      s.current := s.current[a := Value(s.current, a) - total];
    }

    method Acquire(key: string, addr: string)
      requires Valid()
      modifies this, stats.Values
      ensures Valid() && fresh(stats.Values - old(stats.Values))
      ensures Snapshot() == old(Snapshot())[key := Acquired(At(old(Snapshot()), key), addr)]
    {
      ghost var before := Snapshot();
      var s := State(key);
      label found:
      s.inflight := s.inflight[addr := Count(s.inflight, addr) + 1];
      SnapshotChanged@found(key);
      UpdateTwice(before, key, At(before, key), Counters(s.current, s.inflight));
    }

    method Release(key: string, addr: string)
      requires Valid()
      modifies this, stats.Values
      ensures Valid() && fresh(stats.Values - old(stats.Values))
      ensures Snapshot() == old(Snapshot())[key := Released(At(old(Snapshot()), key), addr)]
    {
      ghost var before := Snapshot();
      var s := State(key);
      label found:
      if Count(s.inflight, addr) > 0 {
        s.inflight := s.inflight[addr := s.inflight[addr] - 1];
      }
      SnapshotChanged@found(key);
      UpdateTwice(before, key, At(before, key), Counters(s.current, s.inflight));
    }
  }

  function Acquired(c: Counters, addr: string): Counters {
    c.(inflight := c.inflight[addr := Count(c.inflight, addr) + 1])
  }

  /** A release that would go negative is clamped. */
  function Released(c: Counters, addr: string): Counters {
    if Count(c.inflight, addr) > 0 then c.(inflight := c.inflight[addr := c.inflight[addr] - 1]) else c
  }
}
