/** Smooth weighted round robin over whole runs.

    A run repeats the picker's round on one candidate list with distinct addresses.  The
    counters are seen as a vector: entry i holds the counter of instance i.
  */
module SmoothRoundRobin {
  type Vec = seq<real>

  ghost function Sum(v: Vec): real {
    if v == [] then 0.0 else Sum(v[..|v| - 1]) + v[|v| - 1]
  }

  ghost function SumNat(v: seq<nat>): nat {
    if v == [] then 0 else SumNat(v[..|v| - 1]) + v[|v| - 1]
  }

  ghost function Occurrences(picks: seq<nat>, i: nat): nat {
    if picks == [] then 0
    else Occurrences(picks[..|picks| - 1], i) + (if picks[|picks| - 1] == i then 1 else 0)
  }

  /** One round on vectors: b is the first maximum of v + w, and pays the total. */
  ghost predicate Round(w: Vec, v: Vec, b: nat, v': Vec) {
    && |w| == |v| == |v'| && b < |w|
    && (forall i :: 0 <= i < |w| ==> v[i] + w[i] <= v[b] + w[b])
    && (forall i :: 0 <= i < b ==> v[i] + w[i] < v[b] + w[b])
    && (forall i :: 0 <= i < |w| ==> v'[i] == v[i] + w[i] - (if i == b then Sum(w) else 0.0))
  }

  ghost predicate Run(w: Vec, vs: seq<Vec>, picks: seq<nat>) {
    && |vs| == |picks| + 1 && |vs[0]| == |w|
    && forall n {:trigger picks[n]} :: 0 <= n < |picks| ==> Round(w, vs[n], picks[n], vs[n + 1])
  }

  ghost predicate Positive(w: Vec) {
    |w| > 0 && forall i :: 0 <= i < |w| ==> w[i] > 0.0
  }

  // ----- sums

  lemma {:induction false} SumBump(v: Vec, w: Vec, b: nat, d: real, v': Vec)
    requires |v| == |w| == |v'|
    requires forall i :: 0 <= i < |v| ==> v'[i] == v[i] + w[i] - (if i == b then d else 0.0)
    ensures Sum(v') == Sum(v) + Sum(w) - (if b < |v| then d else 0.0)
  {
    if |v| > 0 {
      var n := |v| - 1;
      SumBump(v[..n], w[..n], b, d, v'[..n]);
    }
  }

  lemma {:induction false} SumUpper(v: Vec, m: real)
    requires forall i :: 0 <= i < |v| ==> v[i] <= m
    ensures Sum(v) <= |v| as real * m
  {
    if |v| > 0 {
      SumUpper(v[..|v| - 1], m);
    }
  }

  lemma {:induction false} SumMonotone(lo: Vec, v: Vec)
    requires |lo| == |v| && forall i :: 0 <= i < |v| ==> lo[i] <= v[i]
    ensures Sum(lo) <= Sum(v)
    ensures forall i :: 0 <= i < |v| ==> v[i] - lo[i] <= Sum(v) - Sum(lo)
  {
    if |v| > 0 {
      var n := |v| - 1;
      SumMonotone(lo[..n], v[..n]);
      assert forall i :: 0 <= i < n ==> v[..n][i] == v[i] && lo[..n][i] == lo[i];
    }
  }

  lemma {:induction false} SumZero(v: Vec)
    requires forall i :: 0 <= i < |v| ==> v[i] == 0.0
    ensures Sum(v) == 0.0
  {
    if |v| > 0 {
      SumZero(v[..|v| - 1]);
    }
  }

  lemma {:induction false} SumPositive(w: Vec)
    requires forall i :: 0 <= i < |w| ==> w[i] > 0.0
    ensures Sum(w) >= 0.0 && (|w| > 0 ==> Sum(w) > 0.0)
  {
    if |w| > 0 {
      SumPositive(w[..|w| - 1]);
    }
  }

  // ----- repeated addition

  /** n times x, by repeated addition: the ledger below stays linear. */
  ghost function Times(n: nat, x: real): real {
    if n == 0 then 0.0 else Times(n - 1, x) + x
  }

  lemma {:induction false} TimesIsProduct(n: nat, x: real)
    ensures Times(n, x) == n as real * x
  {
    if n > 0 {
      TimesIsProduct(n - 1, x);
    }
  }

  lemma {:induction false} TimesAdds(m: nat, n: nat, x: real)
    ensures Times(m + n, x) == Times(m, x) + Times(n, x)
  {
    if n > 0 {
      TimesAdds(m, n - 1, x);
    }
  }

  lemma {:induction false} TimesLinear(n: nat, x: real, y: real)
    ensures Times(n, x + y) == Times(n, x) + Times(n, y)
  {
    if n > 0 {
      TimesLinear(n - 1, x, y);
    }
  }

  lemma {:induction false} TimesSwap(n: nat, a: nat, u: real)
    ensures Times(n, Times(a, u)) == Times(a, Times(n, u))
  {
    if n == 0 {
      TimesZero(a);
    } else {
      TimesSwap(n - 1, a, u);
      TimesLinear(a, Times(n - 1, u), u);
    }
  }

  lemma {:induction false} TimesZero(n: nat)
    ensures Times(n, 0.0) == 0.0
  {
    if n > 0 {
      TimesZero(n - 1);
    }
  }

  lemma {:induction false} TimesSign(n: nat, x: real)
    requires x > 0.0
    ensures Times(n, x) >= 0.0 && (n > 0 ==> Times(n, x) > 0.0)
  {
    if n > 0 {
      TimesSign(n - 1, x);
    }
  }

  lemma TimesMonotone(m: nat, n: nat, x: real)
    ensures x > 0.0 && m <= n ==> Times(m, x) <= Times(n, x)
  {
    if x > 0.0 && m <= n {
      TimesAdds(m, n - m, x);
      TimesSign(n - m, x);
    }
  }

  lemma CancelWeak(k: real, x: real, y: real)
    requires k > 0.0 && k * x <= k * y
    ensures x <= y
  {
  }

  lemma Average(s: real, k: real, m: real)
    requires k > 0.0 && s <= k * m
    ensures s / k <= m
  {
    assert k * (s / k) == s;
    CancelWeak(k, s / k, m);
  }

  lemma QuotientPositive(s: real, k: real)
    requires s > 0.0 && k > 0.0
    ensures s / k > 0.0
  {
  }

  // ----- what every run keeps

  /** Ledger: a counter is its start plus what it gained minus what its own picks cost. */
  lemma {:induction false} Ledger(w: Vec, vs: seq<Vec>, picks: seq<nat>, n: nat, i: nat)
    requires Run(w, vs, picks) && n <= |picks| && i < |w|
    ensures |vs[n]| == |w|
    ensures vs[n][i] == vs[0][i] + Times(n, w[i]) - Times(Occurrences(picks[..n], i), Sum(w))
  {
    if n > 0 {
      Ledger(w, vs, picks, n - 1, i);
      assert picks[..n][..n - 1] == picks[..n - 1];
      assert Round(w, vs[n - 1], picks[n - 1], vs[n]);
    }
  }

  lemma {:induction false} SumKept(w: Vec, vs: seq<Vec>, picks: seq<nat>, n: nat)
    requires Run(w, vs, picks) && n <= |picks|
    ensures |vs[n]| == |w| && Sum(vs[n]) == Sum(vs[0])
  {
    if n > 0 {
      SumKept(w, vs, picks, n - 1);
      assert Round(w, vs[n - 1], picks[n - 1], vs[n]);
      SumBump(vs[n - 1], w, picks[n - 1], Sum(w), vs[n]);
    }
  }

  /** What the winner of a round is left with, at worst: the average of all gained counters, less the total. */
  ghost function Floor(w: Vec, s: real): real
    requires |w| > 0
  {
    (s + Sum(w)) / |w| as real - Sum(w)
  }

  ghost function Low(w: Vec, v0: Vec): Vec
    requires |w| > 0
  {
    seq(|v0|, i requires 0 <= i < |v0| => if v0[i] <= Floor(w, Sum(v0)) then v0[i] else Floor(w, Sum(v0)))
  }

  lemma WinnerAboveAverage(w: Vec, v: Vec, b: nat, v': Vec)
    requires Positive(w) && Round(w, v, b, v')
    ensures v'[b] >= Floor(w, Sum(v))
  {
    var g := seq(|v|, i requires 0 <= i < |v| => v[i] + w[i]);
    SumBump(v, w, |v|, 0.0, g);
    SumUpper(g, g[b]);
    Average(Sum(v) + Sum(w), |w| as real, g[b]);
  }

  lemma {:induction false} BoundedBelow(w: Vec, vs: seq<Vec>, picks: seq<nat>, n: nat)
    requires Positive(w) && Run(w, vs, picks) && n <= |picks|
    ensures |vs[n]| == |w|
    ensures forall i :: 0 <= i < |w| ==> Low(w, vs[0])[i] <= vs[n][i]
  {
    if n > 0 {
      BoundedBelow(w, vs, picks, n - 1);
      SumKept(w, vs, picks, n - 1);
      assert Round(w, vs[n - 1], picks[n - 1], vs[n]);
      WinnerAboveAverage(w, vs[n - 1], picks[n - 1], vs[n]);
    }
  }

  /** The spread no run from v0 ever exceeds. */
  ghost function Spread(w: Vec, v0: Vec): real
    requires |w| > 0
  {
    Sum(v0) - Sum(Low(w, v0))
  }

  /** Fairness from any starting counters, for ever: an instance's share is off by at most a
      constant fixed by the weights and the starting counters, whatever the number of picks. */
  lemma ShareBounded(w: Vec, vs: seq<Vec>, picks: seq<nat>, n: nat, i: nat)
    requires Positive(w) && Run(w, vs, picks) && n <= |picks| && i < |w|
    ensures var off := Times(Occurrences(picks[..n], i), Sum(w)) - Times(n, w[i]);
            -Spread(w, vs[0]) <= off <= Spread(w, vs[0])
  {
    Ledger(w, vs, picks, n, i);
    BoundedBelow(w, vs, picks, n);
    SumKept(w, vs, picks, n);
    SumMonotone(Low(w, vs[0]), vs[n]);
    SumMonotone(Low(w, vs[0]), vs[0]);
  }

  // ----- runs from zero counters

  ghost predicate Zero(v: Vec) {
    forall i :: 0 <= i < |v| ==> v[i] == 0.0
  }

  lemma AboveMinusTotal(w: Vec, vs: seq<Vec>, picks: seq<nat>, n: nat)
    requires Positive(w) && Run(w, vs, picks) && n <= |picks| && Zero(vs[0])
    ensures |vs[n]| == |w|
    ensures forall i :: 0 <= i < |w| ==> vs[n][i] > -Sum(w)
  {
    BoundedBelow(w, vs, picks, n);
    SumZero(vs[0]);
    SumPositive(w);
    QuotientPositive(Sum(w), |w| as real);
  }

  /** No instance is ever ahead of its share by a full pick. */
  lemma NeverAhead(w: Vec, vs: seq<Vec>, picks: seq<nat>, n: nat, i: nat)
    requires Positive(w) && Run(w, vs, picks) && n <= |picks| && i < |w| && Zero(vs[0])
    ensures Times(Occurrences(picks[..n], i), Sum(w)) < Times(n, w[i]) + Sum(w)
  {
    Ledger(w, vs, picks, n, i);
    AboveMinusTotal(w, vs, picks, n);
  }

  /** Weights that are whole multiples a[i] of one unit u. */
  ghost predicate Commensurable(w: Vec, u: real, a: seq<nat>) {
    && u > 0.0 && |a| == |w| > 0
    && forall i :: 0 <= i < |w| ==> a[i] > 0 && w[i] == Times(a[i], u)
  }

  lemma {:induction false} SumScaled(w: Vec, u: real, a: seq<nat>)
    requires |a| == |w| && forall i :: 0 <= i < |w| ==> w[i] == Times(a[i], u)
    ensures Sum(w) == Times(SumNat(a), u)
  {
    if |w| > 0 {
      var n := |w| - 1;
      SumScaled(w[..n], u, a[..n]);
      TimesAdds(SumNat(a[..n]), a[n], u);
    }
  }

  ghost function Tally(picks: seq<nat>, k: nat): seq<nat> {
    seq(k, i requires 0 <= i < k => Occurrences(picks, i))
  }

  lemma {:induction false} OneMore(c: seq<nat>, b: nat, c': seq<nat>)
    requires |c| == |c'| && forall i :: 0 <= i < |c| ==> c'[i] == c[i] + (if i == b then 1 else 0)
    ensures SumNat(c') == SumNat(c) + (if b < |c| then 1 else 0)
  {
    if |c| > 0 {
      OneMore(c[..|c| - 1], b, c'[..|c| - 1]);
    }
  }

  lemma {:induction false} NoneYet(c: seq<nat>)
    requires forall i :: 0 <= i < |c| ==> c[i] == 0
    ensures SumNat(c) == 0
  {
    if |c| > 0 {
      NoneYet(c[..|c| - 1]);
    }
  }

  /** Every pick is counted once, for some instance. */
  lemma {:induction false} TallySum(picks: seq<nat>, k: nat)
    requires forall n :: 0 <= n < |picks| ==> picks[n] < k
    ensures SumNat(Tally(picks, k)) == |picks|
  {
    if picks == [] {
      NoneYet(Tally(picks, k));
    } else {
      var n := |picks| - 1;
      TallySum(picks[..n], k);
      OneMore(Tally(picks[..n], k), picks[n], Tally(picks, k));
    }
  }

  lemma {:induction false} PinnedBySum(c: seq<nat>, a: seq<nat>)
    requires |c| == |a| && forall i :: 0 <= i < |c| ==> c[i] <= a[i]
    ensures SumNat(c) <= SumNat(a)
    ensures SumNat(c) == SumNat(a) ==> c == a
  {
    if |c| > 0 {
      var n := |c| - 1;
      PinnedBySum(c[..n], a[..n]);
      assert SumNat(c) == SumNat(c[..n]) + c[n] && SumNat(a) == SumNat(a[..n]) + a[n];
      if SumNat(c) == SumNat(a) {
        assert c == c[..n] + [c[n]] && a == a[..n] + [a[n]];
      }
    }
  }

  /** At the end of a period no instance is over its share. */
  lemma NotOver(w: Vec, u: real, a: seq<nat>, vs: seq<Vec>, picks: seq<nat>, i: nat)
    requires Commensurable(w, u, a) && Run(w, vs, picks) && Zero(vs[0]) && SumNat(a) <= |picks| && i < |w|
    ensures Occurrences(picks[..SumNat(a)], i) <= a[i]
  {
    WeightsPositive(w, u, a);
    SumScaled(w, u, a);
    NeverAhead(w, vs, picks, SumNat(a), i);
    ShareCap(u, SumNat(a), a[i], Occurrences(picks[..SumNat(a)], i));
  }

  lemma WeightsPositive(w: Vec, u: real, a: seq<nat>)
    requires Commensurable(w, u, a)
    ensures Positive(w)
  {
    forall i | 0 <= i < |w|
      ensures w[i] > 0.0
    {
      TimesSign(a[i], u);
    }
  }

  /** A full share leaves the counter where it started. */
  lemma SettledUp(w: Vec, u: real, a: seq<nat>, vs: seq<Vec>, picks: seq<nat>, i: nat)
    requires Commensurable(w, u, a) && Run(w, vs, picks) && SumNat(a) <= |picks| && i < |w|
    requires Occurrences(picks[..SumNat(a)], i) == a[i]
    ensures |vs[SumNat(a)]| == |w| && vs[SumNat(a)][i] == vs[0][i]
  {
    SumScaled(w, u, a);
    Ledger(w, vs, picks, SumNat(a), i);
    TimesSwap(a[i], SumNat(a), u);
  }

  /** Exact shares: after A = a[0] + a[1] + ... picks instance i has been picked exactly a[i] times,
      and every counter is back at zero. */
  lemma ExactShares(w: Vec, u: real, a: seq<nat>, vs: seq<Vec>, picks: seq<nat>)
    requires Commensurable(w, u, a) && Run(w, vs, picks) && Zero(vs[0]) && SumNat(a) <= |picks|
    ensures forall i :: 0 <= i < |w| ==> Occurrences(picks[..SumNat(a)], i) == a[i]
    ensures |vs[SumNat(a)]| == |w| && Zero(vs[SumNat(a)])
  {
    var ps := picks[..SumNat(a)];
    forall i | 0 <= i < |w|
      ensures Occurrences(ps, i) <= a[i]
    {
      NotOver(w, u, a, vs, picks, i);
    }
    forall m | 0 <= m < |ps|
      ensures ps[m] < |w|
    {
      assert Round(w, vs[m], picks[m], vs[m + 1]);
    }
    TallySum(ps, |w|);
    PinnedBySum(Tally(ps, |w|), a);
    forall i | 0 <= i < |w|
      ensures Occurrences(ps, i) == a[i] && |vs[SumNat(a)]| == |w| && vs[SumNat(a)][i] == 0.0
    {
      assert Tally(ps, |w|)[i] == a[i];
      SettledUp(w, u, a, vs, picks, i);
    }
  }

  lemma TimesCancel(m: nat, n: nat, x: real)
    requires x > 0.0 && Times(m, x) < Times(n, x)
    ensures m < n
  {
    TimesMonotone(n, m, x);
  }

  lemma ShareCap(u: real, n: nat, a: nat, c: nat)
    requires u > 0.0 && Times(c, Times(n, u)) < Times(n, Times(a, u)) + Times(n, u)
    ensures c <= a
  {
    TimesSwap(n, a, u);
    TimesSign(n, u);
    if n == 0 {
      TimesZero(c);
    }
    TimesCancel(c, a + 1, Times(n, u));
  }

  /** Equal counters pick alike and stay equal. */
  lemma Deterministic(w: Vec, v: Vec, b: nat, v': Vec, c: nat, x: Vec)
    requires Round(w, v, b, v') && Round(w, v, c, x)
    ensures b == c && v' == x
  {
  }

  lemma SameRound(w: Vec, vs: seq<Vec>, picks: seq<nat>, n: nat, m: nat)
    requires Run(w, vs, picks) && n < |picks| && m < |picks| && vs[n] == vs[m]
    ensures picks[n] == picks[m] && vs[n + 1] == vs[m + 1]
  {
    assert Round(w, vs[n], picks[n], vs[n + 1]);
    assert Round(w, vs[m], picks[m], vs[m + 1]);
    Deterministic(w, vs[n], picks[n], vs[n + 1], picks[m], vs[m + 1]);
  }

  lemma OccurrencesNext(picks: seq<nat>, n: nat, i: nat)
    requires n < |picks|
    ensures Occurrences(picks[..n + 1], i) == Occurrences(picks[..n], i) + (if picks[n] == i then 1 else 0)
  {
    assert picks[..n + 1][..n] == picks[..n];
  }

  /** The counters have period A, and so has the pick sequence. */
  lemma {:induction false} Periodic(w: Vec, u: real, a: seq<nat>, vs: seq<Vec>, picks: seq<nat>, n: nat, e: nat)
    requires Commensurable(w, u, a) && Run(w, vs, picks) && Zero(vs[0]) && e == n + SumNat(a) <= |picks|
    ensures vs[e] == vs[n]
    ensures e < |picks| ==> picks[e] == picks[n]
  {
    if n == 0 {
      ExactShares(w, u, a, vs, picks);
      assert vs[e] == vs[0];
    } else {
      Periodic(w, u, a, vs, picks, n - 1, e - 1);
      SameRound(w, vs, picks, n - 1, e - 1);
    }
    if e < |picks| {
      SameRound(w, vs, picks, n, e);
    }
  }

  ghost predicate Window(picks: seq<nat>, n: nat, e: nat, i: nat, c: nat) {
    n <= e <= |picks| && Occurrences(picks[..e], i) == Occurrences(picks[..n], i) + c
  }

  lemma SlideWindow(picks: seq<nat>, n: nat, e: nat, i: nat, c: nat)
    requires 0 < n <= e <= |picks| && picks[e - 1] == picks[n - 1]
    requires Window(picks, n - 1, e - 1, i, c)
    ensures Window(picks, n, e, i, c)
  {
    OccurrencesNext(picks, n - 1, i);
    OccurrencesNext(picks, e - 1, i);
  }

  lemma FirstWindow(w: Vec, u: real, a: seq<nat>, vs: seq<Vec>, picks: seq<nat>, i: nat)
    requires Commensurable(w, u, a) && Run(w, vs, picks) && Zero(vs[0]) && SumNat(a) <= |picks| && i < |w|
    ensures Window(picks, 0, SumNat(a), i, a[i])
  {
    ExactShares(w, u, a, vs, picks);
    assert picks[..0] == [];
  }

  /** Any A consecutive picks, wherever they start, choose instance i exactly a[i] times. */
  lemma {:induction false} EveryWindow(w: Vec, u: real, a: seq<nat>, vs: seq<Vec>, picks: seq<nat>, n: nat, e: nat, i: nat)
    requires Commensurable(w, u, a) && Run(w, vs, picks) && Zero(vs[0]) && e == n + SumNat(a) <= |picks|
    requires i < |w|
    ensures Window(picks, n, e, i, a[i])
  {
    if n == 0 {
      FirstWindow(w, u, a, vs, picks, i);
    } else {
      EveryWindow(w, u, a, vs, picks, n - 1, e - 1, i);
      assert picks[e - 1] == picks[n - 1] by {
        Periodic(w, u, a, vs, picks, n - 1, e - 1);
      }
      SlideWindow(picks, n, e, i, a[i]);
    }
  }
}
