/** Domain names as the stores and the routing table key them. */
module Domains {
  import opened Text

  function LowerChar(c: char): char {
    if 'A' <= c <= 'Z' then c + 32 as char else c
  }

  function Lower(s: string): (r: string)
    ensures |r| == |s| && forall i :: 0 <= i < |s| ==> r[i] == LowerChar(s[i])
  {
    seq(|s|, i requires 0 <= i < |s| => LowerChar(s[i]))
  }

  /** strings.EqualFold on ASCII text. */
  predicate EqualFold(a: string, b: string) {
    Lower(a) == Lower(b)
  }

  /** The index of the last ':' of s, or -1. */
  function LastColon(s: string): (i: int)
    ensures -1 <= i < |s| && (i >= 0 ==> s[i] == ':')
    ensures forall k :: i < k < |s| ==> s[k] != ':'
  {
    if s == [] then -1 else if s[|s| - 1] == ':' then |s| - 1 else LastColon(s[..|s| - 1])
  }

  /** Go's int is 64 bits wide and wraps. */
  function Wrap64(n: int): int {
    (n + 0x8000_0000_0000_0000) % 0x1_0000_0000_0000_0000 - 0x8000_0000_0000_0000
  }

  function Accumulated(s: string): int {
    if s == [] then 0 else Wrap64(Accumulated(s[..|s| - 1]) * 10 + (s[|s| - 1] as int - '0' as int))
  }

  /** A decimal port from 1 to 65535. */
  predicate NumericPort(s: string) {
    s != [] && (forall c :: c in s ==> '0' <= c <= '9') && 1 <= Accumulated(s) <= 65535
  }

  function WithoutPort(d: string): string {
    var i := LastColon(d);
    if i > 0 && NumericPort(d[i + 1..]) then d[..i] else d
  }

  function NormalizeDomain(d: string): string {
    TrimSuffix(WithoutPort(TrimSpace(Lower(d))), '.')
  }

  /** A name every reading of which finds the same key. */
  predicate Normal(d: string) {
    NormalizeDomain(d) == d
  }

  lemma {:induction false} TrimRightShortens(s: string)
    ensures |TrimRight(s)| <= |s| && (|TrimRight(s)| == |s| <==> TrimRight(s) == s)
    ensures TrimRight(s) == s <==> s == [] || !IsSpace(s[|s| - 1])
  {
    if s != [] && IsSpace(s[|s| - 1]) {
      TrimRightShortens(s[..|s| - 1]);
    }
  }

  lemma {:induction false} TrimLeftShortens(s: string)
    ensures |TrimLeft(s)| <= |s| && (|TrimLeft(s)| == |s| <==> TrimLeft(s) == s)
    ensures TrimLeft(s) == s <==> s == [] || !IsSpace(s[0])
  {
    if s != [] && IsSpace(s[0]) {
      TrimLeftShortens(s[1..]);
    }
  }

  lemma LowerFixed(d: string)
    ensures Lower(d) == d <==> forall c :: c in d ==> !('A' <= c <= 'Z')
  {
    if forall c :: c in d ==> !('A' <= c <= 'Z') {
      assert forall i :: 0 <= i < |d| ==> d[i] in d;
    } else {
      var i :| 0 <= i < |d| && 'A' <= d[i] <= 'Z';
      assert Lower(d)[i] != d[i];
    }
  }

  /** A name is a fixed point exactly when each stage leaves it alone. */
  lemma StagesFixed(d: string)
    ensures Normal(d) <==>
              Lower(d) == d && TrimLeft(d) == d && TrimRight(d) == d && WithoutPort(d) == d && TrimSuffix(d, '.') == d
  {
    var a := Lower(d);
    var b := TrimLeft(a);
    var c := TrimRight(b);
    TrimLeftShortens(a);
    TrimRightShortens(b);
    assert |WithoutPort(c)| <= |c| && (|WithoutPort(c)| == |c| ==> WithoutPort(c) == c);
    assert |NormalizeDomain(d)| == |d| ==> a == b == c == WithoutPort(c) == NormalizeDomain(d);
  }

  predicate EndsInPort(d: string) {
    LastColon(d) > 0 && NumericPort(d[LastColon(d) + 1..])
  }

  lemma PortFixed(d: string)
    ensures WithoutPort(d) == d <==> !EndsInPort(d)
  {
    assert EndsInPort(d) ==> |WithoutPort(d)| < |d|;
  }

  /** The fixed points of normalisation: lower case, no space at either end, no port, no final dot. */
  lemma NormalIff(d: string)
    ensures Normal(d) <==>
              && (forall c :: c in d ==> !('A' <= c <= 'Z'))
              && (d != [] ==> !IsSpace(d[0]) && !IsSpace(d[|d| - 1]) && d[|d| - 1] != '.')
              && !EndsInPort(d)
  {
    StagesFixed(d);
    LowerFixed(d);
    TrimLeftShortens(d);
    TrimRightShortens(d);
    PortFixed(d);
  }

  /** Normalising twice is not normalising once: a name with two final dots keeps one, and a reader
      that normalises the key again looks under a different one. */
  lemma NotIdempotent()
    ensures NormalizeDomain("a..") == "a." && NormalizeDomain("a.") == "a"
  {
    assert Lower("a..") == "a.." && Lower("a.") == "a.";
    assert TrimSpace("a..") == "a.." && TrimSpace("a.") == "a.";
    assert LastColon("a..") == -1 by {
      assert forall k :: 0 <= k < 3 ==> "a.."[k] != ':';
    }
    assert LastColon("a.") == -1 by {
      assert forall k :: 0 <= k < 2 ==> "a."[k] != ':';
    }
  }

  /** A key some host is looked up under. */
  predicate Reachable(d: string) {
    (forall c :: c in d ==> !('A' <= c <= 'Z')) && (d != [] ==> !IsSpace(d[0]))
  }

  lemma ReachableIff(d: string)
    ensures Reachable(d) <==> exists host :: NormalizeDomain(host) == d
  {
    if Reachable(d) {
      DottedReaches(d);
    }
    forall host
      ensures Reachable(NormalizeDomain(host))
    {
      NormalizedIsReachable(host);
    }
  }

  /** With one more dot at its end a name keeps everything else. */
  lemma DottedReaches(d: string)
    requires Reachable(d)
    ensures NormalizeDomain(d + ".") == d
  {
    var h := d + ".";
    assert Lower(h) == h by {
      LowerFixed(h);
    }
    assert TrimSpace(h) == h by {
      TrimLeftShortens(h);
      TrimRightShortens(h);
    }
    DotIsNoPort(d);
    assert h[..|h| - 1] == d;
  }

  lemma DotIsNoPort(d: string)
    ensures WithoutPort(d + ".") == d + "."
  {
    var h := d + ".";
    var port := h[LastColon(h) + 1..];
    assert h[|h| - 1] == '.';
    assert port[|port| - 1] == '.';
    assert '.' in port && !NumericPort(port);
  }

  lemma NormalizedIsReachable(host: string)
    ensures Reachable(NormalizeDomain(host))
  {
    var a := Lower(host);
    var b, n := TrimLeft(a), NormalizeDomain(host);
    TrimmedLeft(a);
    TrimmedRight(b);
    assert WithoutPort(TrimRight(b)) <= TrimRight(b);
    assert n <= b;
    forall c | c in n
      ensures c in a
    {
      var i :| 0 <= i < |n| && n[i] == c;
      assert b[i] == c;
    }
  }

  lemma {:induction false} TrimmedLeft(s: string)
    ensures TrimLeft(s) != [] ==> !IsSpace(TrimLeft(s)[0])
    ensures forall c :: c in TrimLeft(s) ==> c in s
  {
    if s != [] && IsSpace(s[0]) {
      TrimmedLeft(s[1..]);
    }
  }

  lemma {:induction false} TrimmedRight(s: string)
    ensures TrimRight(s) <= s
  {
    if s != [] && IsSpace(s[|s| - 1]) {
      TrimmedRight(s[..|s| - 1]);
    }
  }

  /** On fixed points the resolver's and the table's way of comparing domains agree. */
  lemma FoldIsEqual(a: string, b: string)
    requires Normal(a) && Normal(b)
    ensures EqualFold(a, b) <==> a == b
  {
    StagesFixed(a);
    StagesFixed(b);
  }

  /** Which stored domains the resolver and the table read alike, for every host in normal form: those
      whose lower-case form is their normal form, and those no such host can reach in either. */
  lemma SeenAlikeIff(d: string)
    ensures (forall host :: Normal(host) ==> (EqualFold(d, host) <==> NormalizeDomain(d) == host)) <==>
              (Normal(NormalizeDomain(d)) ==> NormalizeDomain(d) == Lower(d))
  {
    var n := NormalizeDomain(d);
    if Normal(n) {
      StagesFixed(n);
    }
    forall host | Normal(host) && (Normal(n) ==> n == Lower(d))
      ensures EqualFold(d, host) <==> n == host
    {
      StagesFixed(host);
    }
  }

  /** The same from the other side: on which hosts, lower-cased and no more as the resolver endpoint
      leaves them, the two agree about every stored domain in normal form. */
  lemma HostSeenAlikeIff(host: string)
    ensures (forall d :: Normal(d) ==> (EqualFold(d, Lower(host)) <==> NormalizeDomain(d) == NormalizeDomain(host))) <==>
              (Normal(NormalizeDomain(host)) ==> NormalizeDomain(host) == Lower(host))
  {
    LowerTwice(host);
    var n := NormalizeDomain(host);
    if Normal(n) {
      StagesFixed(n);
    }
    forall d | Normal(d) && (Normal(n) ==> n == Lower(host))
      ensures EqualFold(d, Lower(host)) <==> NormalizeDomain(d) == n
    {
      StagesFixed(d);
    }
  }

  lemma LowerTwice(d: string)
    ensures Lower(Lower(d)) == Lower(d) && NormalizeDomain(Lower(d)) == NormalizeDomain(d)
  {
    assert forall i :: 0 <= i < |d| ==> Lower(Lower(d))[i] == Lower(d)[i];
    assert Lower(Lower(d)) == Lower(d);
  }

  /** Whatever is stored and asked for, the resolver finds nothing the table would not, and for every
      stored domain there is a host for which the table finds more. */
  lemma ResolverSeesLess(d: string, host: string)
    ensures EqualFold(d, Lower(host)) ==> NormalizeDomain(d) == NormalizeDomain(host)
    ensures NormalizeDomain(d) == NormalizeDomain(" " + d) && !EqualFold(d, Lower(" " + d))
  {
    LowerTwice(host);
    LowerTwice(" " + d);
    assert Lower(" " + d)[1..] == Lower(d);
  }
}
