/** What the picker's round-robin counters do over runs of picks.

    With distinct addresses a pick is a round of `SmoothRoundRobin`.  With changing candidate
    lists, and with repeated addresses, the sum of the whole counter map still never moves.
  */
module PickerRuns {
  import opened Registry
  import opened LoadBalancer
  import opened SmoothRoundRobin

  ghost predicate DistinctAddresses(insts: seq<Instance>) {
    forall i, j :: 0 <= i < j < |insts| ==> Addr(insts[i]) != Addr(insts[j])
  }

  ghost function Weights(insts: seq<Instance>): Vec {
    seq(|insts|, i requires 0 <= i < |insts| => WeightOf(insts[i]))
  }

  ghost function Vector(cur: Currents, insts: seq<Instance>): Vec {
    seq(|insts|, i requires 0 <= i < |insts| => Value(cur, Addr(insts[i])))
  }

  // ----- one pick

  lemma {:induction false} GainIsWeight(insts: seq<Instance>, i: nat, n: nat)
    requires DistinctAddresses(insts) && i < |insts| && n <= |insts|
    ensures Gain(insts, Addr(insts[i]), n) == if i < n then WeightOf(insts[i]) else 0.0
  {
    if n > 0 {
      GainIsWeight(insts, i, n - 1);
    }
  }

  lemma {:induction false} TotalIsSum(insts: seq<Instance>, n: nat)
    requires n <= |insts|
    ensures TotalWeight(insts, n) == Sum(Weights(insts)[..n])
  {
    if n > 0 {
      TotalIsSum(insts, n - 1);
      assert Weights(insts)[..n][..n - 1] == Weights(insts)[..n - 1];
    }
  }

  lemma PickIsRound(cur: Currents, insts: seq<Instance>, b: nat, cur': Currents)
    requires DistinctAddresses(insts) && RoundRobinPick(cur, insts, b, cur')
    ensures Round(Weights(insts), Vector(cur, insts), b, Vector(cur', insts))
  {
    var w, v := Weights(insts), Vector(cur, insts);
    TotalIsSum(insts, |insts|);
    assert w[..|insts|] == w;
    forall i | 0 <= i < |insts|
      ensures Score(cur, insts, i) == v[i] + w[i]
      ensures Vector(cur', insts)[i] == v[i] + w[i] - (if i == b then Sum(w) else 0.0)
    {
      GainIsWeight(insts, i, i + 1);
      GainIsWeight(insts, i, |insts|);
      assert Addr(insts[i]) == Addr(insts[b]) <==> i == b;
    }
  }

  // ----- runs on one candidate list

  ghost predicate PickRun(insts: seq<Instance>, curs: seq<Currents>, picks: seq<nat>) {
    && |curs| == |picks| + 1
    && forall n {:trigger picks[n]} :: 0 <= n < |picks| ==> RoundRobinPick(curs[n], insts, picks[n], curs[n + 1])
  }

  ghost function Vectors(insts: seq<Instance>, curs: seq<Currents>): seq<Vec> {
    seq(|curs|, n requires 0 <= n < |curs| => Vector(curs[n], insts))
  }

  lemma PickRunIsRun(insts: seq<Instance>, curs: seq<Currents>, picks: seq<nat>)
    requires DistinctAddresses(insts) && PickRun(insts, curs, picks)
    ensures Run(Weights(insts), Vectors(insts, curs), picks)
    ensures |insts| > 0 ==> Positive(Weights(insts))
  {
    forall n | 0 <= n < |picks|
      ensures Round(Weights(insts), Vectors(insts, curs)[n], picks[n], Vectors(insts, curs)[n + 1])
    {
      PickIsRound(curs[n], insts, picks[n], curs[n + 1]);
    }
  }

  /** A fresh target: every counter of the list reads zero. */
  ghost predicate Fresh(insts: seq<Instance>, cur: Currents) {
    forall i :: 0 <= i < |insts| ==> Value(cur, Addr(insts[i])) == 0.0
  }

  ghost predicate WeightUnits(insts: seq<Instance>, u: real, a: seq<nat>) {
    Commensurable(Weights(insts), u, a)
  }

  /** Weights a[i]·u, fresh counters: any A = Σa consecutive picks, wherever they start, choose
      instance i exactly a[i] times. */
  lemma WeightedShares(insts: seq<Instance>, u: real, a: seq<nat>, curs: seq<Currents>, picks: seq<nat>,
                       n: nat, e: nat, i: nat)
    requires DistinctAddresses(insts) && PickRun(insts, curs, picks) && Fresh(insts, curs[0])
    requires WeightUnits(insts, u, a) && e == n + SumNat(a) <= |picks| && i < |insts|
    ensures Occurrences(picks[..e], i) == Occurrences(picks[..n], i) + a[i]
  {
    PickRunIsRun(insts, curs, picks);
    EveryWindow(Weights(insts), u, a, Vectors(insts, curs), picks, n, e, i);
  }

  /** In the same setting the counters and the pick sequence have period A; in particular every
      counter reads zero again after the first A picks. */
  lemma WeightedPeriod(insts: seq<Instance>, u: real, a: seq<nat>, curs: seq<Currents>, picks: seq<nat>,
                       n: nat, e: nat)
    requires DistinctAddresses(insts) && PickRun(insts, curs, picks) && Fresh(insts, curs[0])
    requires WeightUnits(insts, u, a) && e == n + SumNat(a) <= |picks|
    ensures e < |picks| ==> picks[e] == picks[n]
    ensures forall i :: 0 <= i < |insts| ==> Value(curs[e], Addr(insts[i])) == Value(curs[n], Addr(insts[i]))
    ensures n == 0 ==> Fresh(insts, curs[e])
  {
    var vs := Vectors(insts, curs);
    PickRunIsRun(insts, curs, picks);
    Periodic(Weights(insts), u, a, vs, picks, n, e);
    forall i | 0 <= i < |insts|
      ensures Value(curs[e], Addr(insts[i])) == Value(curs[n], Addr(insts[i]))
    {
      assert vs[e][i] == Value(curs[e], Addr(insts[i]));
      assert vs[n][i] == Value(curs[n], Addr(insts[i]));
    }
  }

  /** Fresh counters, any weights: W·picks(i) < n·w(i) + W after n picks. */
  lemma NeverAheadOfShare(insts: seq<Instance>, curs: seq<Currents>, picks: seq<nat>, n: nat, i: nat)
    requires DistinctAddresses(insts) && PickRun(insts, curs, picks) && Fresh(insts, curs[0])
    requires n <= |picks| && i < |insts|
    ensures var total := Sum(Weights(insts));
            Times(Occurrences(picks[..n], i), total) < Times(n, WeightOf(insts[i])) + total
    ensures Value(curs[n], Addr(insts[i])) > -Sum(Weights(insts))
  {
    var w, vs := Weights(insts), Vectors(insts, curs);
    PickRunIsRun(insts, curs, picks);
    assert Zero(vs[0]);
    NeverAhead(w, vs, picks, n, i);
    AboveMinusTotal(w, vs, picks, n);
    assert vs[n][i] == Value(curs[n], Addr(insts[i]));
  }

  /** Counters carried over a refresh or a retry, so arbitrary ones: the imbalance stays under a
      constant fixed by the list and the starting counters, however many picks follow. */
  lemma FairFromAnyState(insts: seq<Instance>, curs: seq<Currents>, picks: seq<nat>, n: nat, i: nat)
    requires DistinctAddresses(insts) && PickRun(insts, curs, picks) && n <= |picks| && i < |insts|
    ensures var bound := Spread(Weights(insts), Vector(curs[0], insts));
            var off := Times(Occurrences(picks[..n], i), Sum(Weights(insts))) - Times(n, WeightOf(insts[i]));
            -bound <= off <= bound
  {
    PickRunIsRun(insts, curs, picks);
    ShareBounded(Weights(insts), Vectors(insts, curs), picks, n, i);
  }

  // ----- arbitrary, changing candidate lists

  ghost function Total(s: set<string>, f: string -> real): real {
    if s == {} then 0.0
    else var x :| x in s; f(x) + Total(s - {x}, f)
  }

  lemma {:induction false} TotalSplit(s: set<string>, f: string -> real, x: string)
    requires x in s
    ensures Total(s, f) == f(x) + Total(s - {x}, f)
  {
    var y :| y in s && Total(s, f) == f(y) + Total(s - {y}, f);
    if y != x {
      TotalSplit(s - {y}, f, x);
      TotalSplit(s - {x}, f, y);
      assert s - {y} - {x} == s - {x} - {y};
    }
  }

  lemma {:induction false} TotalSame(s: set<string>, f: string -> real, g: string -> real)
    requires forall x :: x in s ==> f(x) == g(x)
    ensures Total(s, f) == Total(s, g)
  {
    if s != {} {
      var x :| x in s;
      TotalSplit(s, f, x);
      TotalSplit(s, g, x);
      TotalSame(s - {x}, f, g);
    }
  }

  lemma TotalBump(s: set<string>, f: string -> real, g: string -> real, x: string, d: real)
    requires x in s && g(x) == f(x) + d && forall y :: y in s && y != x ==> g(y) == f(y)
    ensures Total(s, g) == Total(s, f) + d
  {
    TotalSplit(s, f, x);
    TotalSplit(s, g, x);
    TotalSame(s - {x}, f, g);
  }

  lemma {:induction false} TotalGrow(s: set<string>, t: set<string>, f: string -> real)
    requires s <= t && forall x :: x in t && x !in s ==> f(x) == 0.0
    ensures Total(t, f) == Total(s, f)
    decreases |t - s|
  {
    if s != t {
      var x :| x in t && x !in s;
      TotalSplit(t, f, x);
      assert t - {x} - s == t - s - {x};
      TotalGrow(s, t - {x}, f);
    }
  }

  /** The sum of all counters of a target. */
  ghost function CounterSum(cur: Currents): real {
    Total(cur.Keys, a => Value(cur, a))
  }

  lemma {:induction false} GainedSum(cur: Currents, insts: seq<Instance>, n: nat, s: set<string>)
    requires n <= |insts| && Addrs(insts, |insts|) <= s
    ensures Total(s, a => Value(cur, a) + Gain(insts, a, n)) == Total(s, a => Value(cur, a)) + TotalWeight(insts, n)
  {
    if n == 0 {
      TotalSame(s, a => Value(cur, a) + Gain(insts, a, n), a => Value(cur, a));
    } else {
      GainedSum(cur, insts, n - 1, s);
      AddrsContain(insts, |insts|, n - 1);
      TotalBump(s, a => Value(cur, a) + Gain(insts, a, n - 1), a => Value(cur, a) + Gain(insts, a, n),
                Addr(insts[n - 1]), WeightOf(insts[n - 1]));
    }
  }

  /** A pick moves weight around: the sum of the whole counter map is what it was. */
  lemma PickConserves(cur: Currents, insts: seq<Instance>, b: nat, cur': Currents)
    requires RoundRobinPick(cur, insts, b, cur')
    ensures CounterSum(cur') == CounterSum(cur)
  {
    var n, s := |insts|, cur'.Keys;
    GainedSum(cur, insts, n, s);
    AddrsContain(insts, n, b);
    TotalBump(s, a => Value(cur, a) + Gain(insts, a, n), a => Value(cur', a), Addr(insts[b]), -TotalWeight(insts, n));
    TotalGrow(cur.Keys, s, a => Value(cur, a));
  }

  /** Any sequence of picks, each on its own candidate list: retries over shrinking lists and
      refreshes that replace the list included. */
  ghost predicate ChangingRun(lists: seq<seq<Instance>>, curs: seq<Currents>, picks: seq<nat>) {
    && |lists| == |picks| && |curs| == |picks| + 1
    && forall n {:trigger picks[n]} :: 0 <= n < |picks| ==> RoundRobinPick(curs[n], lists[n], picks[n], curs[n + 1])
  }

  lemma {:induction false} SumNeverMoves(lists: seq<seq<Instance>>, curs: seq<Currents>, picks: seq<nat>, n: nat)
    requires ChangingRun(lists, curs, picks) && n <= |picks|
    ensures CounterSum(curs[n]) == CounterSum(curs[0])
    ensures curs[0] == map[] ==> CounterSum(curs[n]) == 0.0
  {
    if n > 0 {
      SumNeverMoves(lists, curs, picks, n - 1);
      PickConserves(curs[n - 1], lists[n - 1], picks[n - 1], curs[n]);
    }
  }
}
