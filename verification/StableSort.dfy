/** A stable in-place sort and what a reader of the sorted list may rely on: looking for the first
    element with some property finds what a running-best scan of the unsorted list would have kept. */
module StableSort {
  import opened Registry

  /** `less` orders elements into levels; elements on one level are not told apart. */
  ghost predicate Levels<T(!new)>(less: (T, T) -> bool) {
    && (forall x, y :: less(x, y) ==> !less(y, x))
    && (forall x, y, z :: less(x, y) && !less(z, y) ==> less(x, z))
  }

  ghost predicate Ordered<T>(s: seq<T>, less: (T, T) -> bool) {
    forall i, j :: 0 <= i < j < |s| ==> !less(s[j], s[i])
  }

  /** Where x goes among the first n elements: behind everything it is not before. */
  function Slot<T>(s: seq<T>, x: T, less: (T, T) -> bool, n: nat): (k: nat)
    requires n <= |s|
    ensures k <= n && (k > 0 ==> !less(x, s[k - 1]))
    ensures forall i :: k <= i < n ==> less(x, s[i])
  {
    if n > 0 && less(x, s[n - 1]) then Slot(s, x, less, n - 1) else n
  }

  function Insert<T>(s: seq<T>, x: T, less: (T, T) -> bool): seq<T> {
    var k := Slot(s, x, less, |s|);
    s[..k] + [x] + s[k..]
  }

  function Sorted<T>(s: seq<T>, less: (T, T) -> bool): seq<T> {
    if s == [] then [] else Insert(Sorted(s[..|s| - 1], less), s[|s| - 1], less)
  }

  lemma BeforeSlot<T(!new)>(s: seq<T>, x: T, less: (T, T) -> bool)
    requires Levels(less) && Ordered(s, less)
    ensures forall i :: 0 <= i < Slot(s, x, less, |s|) ==> !less(x, s[i])
  {
    var k := Slot(s, x, less, |s|);
    forall i | 0 <= i < k
      ensures !less(x, s[i])
    {
      if i < k - 1 {
        assert !less(s[k - 1], s[i]);
      }
    }
  }

  lemma {:induction false} SortedIsOrdered<T(!new)>(s: seq<T>, less: (T, T) -> bool)
    requires Levels(less)
    ensures Ordered(Sorted(s, less), less)
  {
    if s != [] {
      var x, r := s[|s| - 1], Sorted(s[..|s| - 1], less);
      SortedIsOrdered(s[..|s| - 1], less);
      BeforeSlot(r, x, less);
    }
  }

  lemma InsertAdds<T>(s: seq<T>, x: T, less: (T, T) -> bool)
    ensures multiset(Insert(s, x, less)) == multiset(s) + multiset{x}
  {
    var k := Slot(s, x, less, |s|);
    assert s == s[..k] + s[k..];
  }

  lemma {:induction false} SortedKeepsAll<T>(s: seq<T>, less: (T, T) -> bool)
    ensures multiset(Sorted(s, less)) == multiset(s)
  {
    if s != [] {
      var x := s[|s| - 1];
      SortedKeepsAll(s[..|s| - 1], less);
      InsertAdds(Sorted(s[..|s| - 1], less), x, less);
      assert s == s[..|s| - 1] + [x];
    }
  }

  lemma SameMembers<T>(s: seq<T>, less: (T, T) -> bool)
    ensures forall x :: x in Sorted(s, less) <==> x in s
    ensures |Sorted(s, less)| == |s|
  {
    SortedKeepsAll(s, less);
    forall x
      ensures x in Sorted(s, less) <==> x in s
    {
      assert x in Sorted(s, less) <==> x in multiset(Sorted(s, less));
      assert x in s <==> x in multiset(s);
    }
    assert |Sorted(s, less)| == |multiset(Sorted(s, less))|;
    assert |s| == |multiset(s)|;
  }

  ghost predicate Distinct<T>(s: seq<T>) {
    forall i, j :: 0 <= i < j < |s| ==> s[i] != s[j]
  }

  ghost predicate Ascending<T(!new)>(s: seq<T>, less: (T, T) -> bool) {
    forall i, j :: 0 <= i < j < |s| ==> less(s[i], s[j])
  }

  lemma SortedDistinct<T>(s: seq<T>, less: (T, T) -> bool)
    requires Distinct(s)
    ensures Distinct(Sorted(s, less))
  {
    var r := Sorted(s, less);
    SortedKeepsAll(s, less);
    forall i, j | 0 <= i < j < |r|
      ensures r[i] != r[j]
    {
      if r[i] == r[j] {
        TwiceCounted(r, i, j);
        assert r[i] in multiset(s);
        var k :| 0 <= k < |s| && s[k] == r[i];
        OnceCounted(s, k);
      }
    }
  }

  lemma TwiceCounted<T>(s: seq<T>, i: nat, j: nat)
    requires i < j < |s| && s[i] == s[j]
    ensures multiset(s)[s[i]] >= 2
  {
    assert s == s[..i] + [s[i]] + s[i + 1..j] + [s[j]] + s[j + 1..];
  }

  lemma OnceCounted<T>(s: seq<T>, k: nat)
    requires k < |s| && Distinct(s)
    ensures multiset(s)[s[k]] <= 1
  {
    assert s == s[..k] + [s[k]] + s[k + 1..];
    assert s[k] !in s[..k] && s[k] !in s[k + 1..];
  }

  function First<T>(s: seq<T>, p: T -> bool): (r: Option<T>)
    ensures r.Some? ==> r.value in s && p(r.value)
    ensures r.None? ==> forall x :: x in s ==> !p(x)
  {
    if s == [] then None else if p(s[0]) then Some(s[0]) else First(s[1..], p)
  }

  /** The elements with a property, in order. */
  function Keep<T(!new)>(s: seq<T>, f: T -> bool): (r: seq<T>)
    ensures forall x :: x in r <==> x in s && f(x)
  {
    if s == [] then []
    else Keep(s[..|s| - 1], f) + (if f(s[|s| - 1]) then [s[|s| - 1]] else [])
  }

  function Both<T>(f: T -> bool, p: T -> bool): T -> bool {
    x => f(x) && p(x)
  }

  /** The running best of a scan from the front: replaced only by something strictly before it. */
  function Best<T>(s: seq<T>, p: T -> bool, less: (T, T) -> bool): (r: Option<T>)
    ensures r.Some? ==> p(r.value)
  {
    if s == [] then None
    else
      var x, best := s[|s| - 1], Best(s[..|s| - 1], p, less);
      if p(x) && (best.None? || less(x, best.value)) then Some(x) else best
  }

  /** Element k is the first of the least with the property: nothing with it is before element k,
      and what shares its level comes later. */
  ghost predicate FirstOfLeast<T>(s: seq<T>, p: T -> bool, less: (T, T) -> bool, k: nat) {
    && k < |s| && p(s[k])
    && (forall i :: 0 <= i < k && p(s[i]) ==> less(s[k], s[i]))
    && (forall i :: k < i < |s| && p(s[i]) ==> !less(s[i], s[k]))
  }

  /** The running best is the first of the least. */
  lemma {:induction false} BestIsLeast<T(!new)>(s: seq<T>, p: T -> bool, less: (T, T) -> bool) returns (k: nat)
    requires Levels(less)
    ensures Best(s, p, less).None? <==> k == |s|
    ensures Best(s, p, less).None? ==> forall i :: 0 <= i < |s| ==> !p(s[i])
    ensures Best(s, p, less).Some? ==> FirstOfLeast(s, p, less, k) && s[k] == Best(s, p, less).value
  {
    if s == [] {
      return 0;
    }
    var n := |s| - 1;
    k := BestIsLeast(s[..n], p, less);
    if k == n && !p(s[n]) {
      return |s|;
    }
    if k == n || (p(s[n]) && less(s[n], s[k])) {
      return n;
    }
  }

  lemma {:induction false} BestOfKept<T(!new)>(s: seq<T>, f: T -> bool, p: T -> bool, less: (T, T) -> bool)
    ensures Best(Keep(s, f), p, less) == Best(s, Both(f, p), less)
  {
    if s != [] {
      var n := |s| - 1;
      BestOfKept(s[..n], f, p, less);
      var kept := Keep(s[..n], f);
      if f(s[n]) {
        assert (kept + [s[n]])[..|kept|] == kept;
      } else {
        assert kept + [] == kept;
      }
    }
  }

  /** The first element with a property after one more is inserted. */
  lemma FirstInserted<T(!new)>(r: seq<T>, x: T, p: T -> bool, less: (T, T) -> bool)
    requires Levels(less) && Ordered(r, less)
    ensures First(Insert(r, x, less), p) ==
              if p(x) && (First(r, p).None? || less(x, First(r, p).value)) then Some(x) else First(r, p)
  {
    SlotSplits(r, x, less);
    FirstAt(r, x, Slot(r, x, less, |r|), p, less);
  }

  lemma FirstAt<T>(r: seq<T>, x: T, k: nat, p: T -> bool, less: (T, T) -> bool)
    requires k <= |r| && (forall y :: y in r[..k] ==> !less(x, y)) && (forall y :: y in r[k..] ==> less(x, y))
    ensures First(r[..k] + [x] + r[k..], p) ==
              if p(x) && (First(r, p).None? || less(x, First(r, p).value)) then Some(x) else First(r, p)
  {
    FirstAround(r[..k], x, r[k..], p, less);
    assert r[..k] + r[k..] == r;
  }

  lemma FirstAround<T>(a: seq<T>, x: T, b: seq<T>, p: T -> bool, less: (T, T) -> bool)
    requires forall y :: y in a ==> !less(x, y)
    requires forall y :: y in b ==> less(x, y)
    ensures First(a + [x] + b, p) ==
              if p(x) && (First(a + b, p).None? || less(x, First(a + b, p).value)) then Some(x) else First(a + b, p)
  {
    FirstOfSplit(a, x, b, p);
    FirstOfTwo(a, b, p);
  }

  lemma SlotSplits<T(!new)>(r: seq<T>, x: T, less: (T, T) -> bool)
    requires Levels(less) && Ordered(r, less)
    ensures var k := Slot(r, x, less, |r|);
            (forall y :: y in r[..k] ==> !less(x, y)) && (forall y :: y in r[k..] ==> less(x, y))
  {
    BeforeSlot(r, x, less);
  }

  /** The first element with a property in the sorted list is the running best of the list as it
      was: sorting once pays for every later scan. */
  lemma {:induction false} FirstIsBest<T(!new)>(s: seq<T>, p: T -> bool, less: (T, T) -> bool)
    requires Levels(less)
    ensures First(Sorted(s, less), p) == Best(s, p, less)
  {
    if s != [] {
      FirstIsBest(s[..|s| - 1], p, less);
      SortedIsOrdered(s[..|s| - 1], less);
      FirstInserted(Sorted(s[..|s| - 1], less), s[|s| - 1], p, less);
    }
  }

  lemma {:induction false} FirstOfTwo<T>(a: seq<T>, b: seq<T>, p: T -> bool)
    ensures First(a + b, p) == if First(a, p).Some? then First(a, p) else First(b, p)
  {
    if a == [] {
      assert a + b == b;
    } else {
      assert (a + b)[1..] == a[1..] + b;
      FirstOfTwo(a[1..], b, p);
    }
  }

  lemma FirstOfSplit<T>(a: seq<T>, x: T, b: seq<T>, p: T -> bool)
    ensures First(a + [x] + b, p) ==
              if First(a, p).Some? then First(a, p) else if p(x) then Some(x) else First(b, p)
  {
    FirstOfTwo(a + [x], b, p);
    FirstOfTwo(a, [x], p);
    assert [x][1..] == [];
  }

  /** Insertion sort, in place. */
  method Sort<T>(a: array<T>, less: (T, T) -> bool)
    modifies a
    ensures a[..] == Sorted(old(a[..]), less)
  {
    ghost var was := a[..];
    var n := 0;
    while n < a.Length
      invariant 0 <= n <= a.Length
      invariant a[..n] == Sorted(was[..n], less)
      invariant a[n..] == was[n..]
    {
      assert was[..n + 1][..n] == was[..n];
      assert a[n] == a[n..][0] == was[n];
      PushDown(a, n, less);
      assert a[n + 1..] == was[n..][1..];
      n := n + 1;
    }
    assert a[..] == a[..n] && was == was[..n];
  }

  lemma Assembled<T>(s: seq<T>, front: seq<T>, i: nat, x: T)
    requires |s| == |front| + 1 && i <= |front| && s[i] == x
    requires forall m :: 0 <= m < i ==> s[m] == front[m]
    requires forall m :: i < m < |s| ==> s[m] == front[m - 1]
    ensures s == front[..i] + [x] + front[i..]
  {
  }

  /** Moves element n down to its place among the sorted elements before it. */
  method PushDown<T>(a: array<T>, n: nat, less: (T, T) -> bool)
    requires n < a.Length
    modifies a
    ensures a[..n + 1] == Insert(old(a[..n]), old(a[n]), less)
    ensures a[n + 1..] == old(a[n + 1..])
  {
    ghost var was := a[..];
    ghost var front := a[..n];
    var x := a[n];
    var i := n;
    while i > 0 && less(x, a[i - 1])
      invariant 0 <= i <= n
      invariant forall m :: 0 <= m < i ==> a[m] == was[m]
      invariant forall m :: i < m <= n ==> a[m] == was[m - 1]
      invariant forall m :: n < m < a.Length ==> a[m] == was[m]
      invariant Slot(front, x, less, n) == Slot(front, x, less, i)
    {
      a[i] := a[i - 1];
      i := i - 1;
    }
    a[i] := x;
    Assembled(a[..n + 1], front, i, x);
    assert a[n + 1..] == was[n + 1..];
  }
}
