/** Finding the wildcard certificate that serves a name. */
module Wildcards {
  import opened Registry
  import opened Text

  function Join(labels: seq<string>): string {
    if labels == [] then "" else if |labels| == 1 then labels[0] else labels[0] + "." + Join(labels[1..])
  }

  /** The pieces between the dots. */
  function Split(name: string): (labels: seq<string>)
    ensures |labels| > 0 && forall i :: 0 <= i < |labels| ==> '.' !in labels[i]
  {
    if name == "" then [""]
    else
      var rest := Split(name[1..]);
      if name[0] == '.' then [""] + rest else [[name[0]] + rest[0]] + rest[1..]
  }

  lemma {:induction false} JoinSplit(name: string)
    ensures Join(Split(name)) == name
  {
    if name != "" {
      var rest := Split(name[1..]);
      JoinSplit(name[1..]);
      assert [name[0]] + name[1..] == name;
      if name[0] == '.' {
        assert ([""] + rest)[1..] == rest;
      } else {
        assert ([[name[0]] + rest[0]] + rest[1..])[1..] == rest[1..];
      }
    }
  }

  predicate HasSuffix(s: string, suffix: string) {
    |suffix| <= |s| && s[|s| - |suffix|..] == suffix
  }

  /** A pattern covers the names with exactly one label more. */
  predicate CoversWildcard(pattern: string, name: string) {
    HasPrefix(pattern, "*.") && HasSuffix(name, "." + pattern[2..]) && OneLabel(name[..|name| - |pattern| + 1])
  }

  predicate OneLabel(s: string) {
    s != "" && '.' !in s
  }

  /** Walks up the labels, leaving at least two under the star. */
  method LookupWildcard(certs: map<string, nat>, name: string) returns (r: Option<nat>)
    ensures r == Wildcard(certs, name)
  {
    if name == "" {
      assert Split(name) == [""];
      return None;
    }
    var labels := Split(name);
    JoinSplit(name);
    var i := 1;
    while i < |labels| - 1
      invariant 1 <= i
      invariant i > 1 && |labels| >= 3 ==> Wildcard(certs, name) == None
    {
      var pattern := "*." + Join(labels[i..]);
      CoversIff(labels, name, i);
      if pattern in certs && CoversWildcard(pattern, name) {
        return Some(certs[pattern]);
      }
      i := i + 1;
    }
    return None;
  }

  /** What the walk amounts to: only the first step up can match, so it is one lookup of the name with
      its first label replaced by the star, when that label is there and two labels remain. */
  function Wildcard(certs: map<string, nat>, name: string): Option<nat> {
    var labels := Split(name);
    if |labels| >= 3 && labels[0] != "" && "*." + Join(labels[1..]) in certs then Some(certs["*." + Join(labels[1..])]) else None
  }

  /** A pattern made from the labels from the i-th on covers the name only for i = 1. */
  lemma CoversIff(labels: seq<string>, name: string, i: nat)
    requires labels == Split(name) && name == Join(labels) && 1 <= i < |labels|
    ensures CoversWildcard("*." + Join(labels[i..]), name) <==> i == 1 && labels[0] != ""
  {
    JoinApart(labels, i);
    CoversTail(Join(labels[..i]), Join(labels[i..]));
    HeadIsLabel(labels, i);
  }

  lemma CoversTail(head: string, rest: string)
    ensures CoversWildcard("*." + rest, head + "." + rest) <==> OneLabel(head)
  {
    var pattern, name := "*." + rest, head + "." + rest;
    assert pattern[2..] == rest;
    assert HasSuffix(name, "." + rest);
    assert name[..|name| - |pattern| + 1] == head;
  }

  lemma HeadIsLabel(labels: seq<string>, i: nat)
    requires 1 <= i <= |labels| && forall k :: 0 <= k < |labels| ==> '.' !in labels[k]
    ensures OneLabel(Join(labels[..i])) <==> i == 1 && labels[0] != ""
  {
    var front := labels[..i];
    if i > 1 {
      assert Join(front) == front[0] + "." + Join(front[1..]);
    }
  }

  lemma {:induction false} JoinApart(labels: seq<string>, i: nat)
    requires 1 <= i < |labels|
    ensures Join(labels) == Join(labels[..i]) + "." + Join(labels[i..])
  {
    if i == 1 {
      assert labels[..1] == [labels[0]];
    } else {
      JoinApart(labels[1..], i - 1);
      assert labels[1..][..i - 1] == labels[..i][1..] && labels[1..][i - 1..] == labels[i..];
    }
  }
}
