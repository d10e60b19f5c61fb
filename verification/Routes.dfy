/** Which route serves a path: the longest-prefix scan over all rows, and the sorted first-match
    table built to avoid running that scan on every request. */
module Routes {
  import opened Registry
  import opened Text
  import opened Domains
  import opened StableSort

  datatype Route = Route(domain: string, prefix: string, app: string, component: string, upstream: string, priority: int)

  // ----- matching

  /** "/" catches all; anything else must end at a segment boundary. */
  predicate PathPrefixMatches(prefix: string, path: string) {
    if prefix == "" || prefix == "/" then true
    else
      var trimmed := TrimSuffix(prefix, '/');
      trimmed == "" || path == trimmed || HasPrefix(path, trimmed + "/")
  }

  function Trim(prefix: string): string {
    TrimSuffix(prefix, '/')
  }

  /** Both resolvers read an empty path as "/". */
  function Rooted(path: string): string {
    if path == "" then "/" else path
  }

  /** The characters a path and a prefix share decide the match; the trailing slash does not. */
  lemma MatchIsOfTrimmed(prefix: string, path: string)
    ensures PathPrefixMatches(prefix, path) <==>
              (HasPrefix(path, Trim(prefix))
               && (Trim(prefix) == "" || |path| == |Trim(prefix)| || path[|Trim(prefix)|] == '/'))
  {
    var t := Trim(prefix);
    if |path| > |t| {
      assert path[..|t| + 1] == path[..|t|] + [path[|t|]];
    }
  }

  // ----- the scan

  predicate LongerFirst(a: Route, b: Route) {
    |a.prefix| > |b.prefix| || (|a.prefix| == |b.prefix| && a.priority < b.priority)
  }

  predicate Serves(r: Route, domain: string, path: string) {
    EqualFold(r.domain, domain) && PathPrefixMatches(r.prefix, path)
  }

  function Serving(domain: string, path: string): Route -> bool {
    (r: Route) => Serves(r, domain, path)
  }

  function Matching(path: string): Route -> bool {
    (r: Route) => PathPrefixMatches(r.prefix, path)
  }

  function Scan(routes: seq<Route>, domain: string, path: string): Option<Route> {
    Best(routes, Serving(domain, Rooted(path)), LongerFirst)
  }

  method MatchRoute(routes: seq<Route>, domain: string, path0: string) returns (best: Option<Route>)
    ensures best == Scan(routes, domain, path0)
  {
    var path := path0;
    if path == "" {
      path := "/";
    }
    best := None;
    for i := 0 to |routes|
      invariant best == Best(routes[..i], Serving(domain, path), LongerFirst)
    {
      var r := routes[i];
      assert routes[..i + 1][..i] == routes[..i];
      if !EqualFold(r.domain, domain) {
        continue;
      }
      if !PathPrefixMatches(r.prefix, path) {
        continue;
      }
      if best.None? || |r.prefix| > |best.value.prefix|
         || (|r.prefix| == |best.value.prefix| && r.priority < best.value.priority)
      {
        best := Some(r);
      }
    }
    assert routes[..|routes|] == routes;
  }

  // ----- the table

  /** Go's string order. */
  predicate Less(a: string, b: string) {
    b != [] && (a == [] || a[0] < b[0] || (a[0] == b[0] && Less(a[1..], b[1..])))
  }

  /** Longest trimmed prefix first, then explicit priority, then component name. */
  predicate RouteBefore(a: Route, b: Route) {
    if |Trim(a.prefix)| != |Trim(b.prefix)| then |Trim(a.prefix)| > |Trim(b.prefix)|
    else if a.priority != b.priority then a.priority < b.priority
    else Less(a.component, b.component)
  }

  method SortRouteEntries(list: array<Route>)
    modifies list
    ensures list[..] == Sorted(old(list[..]), RouteBefore)
  {
    Sort(list, RouteBefore);
  }

  /** The route the table built from these rows answers with; `domain` is already in normal form and
      `listed` says which rows are entered under it. */
  function TablePick(routes: seq<Route>, listed: Route -> bool, path: string): Option<Route> {
    First(Sorted(Keep(routes, listed), RouteBefore), Matching(Rooted(path)))
  }

  // ----- the order of entries is an order of levels

  lemma {:induction false} LessAsymmetric(a: string, b: string)
    ensures !(Less(a, b) && Less(b, a))
  {
    if a != [] && b != [] && a[0] == b[0] {
      LessAsymmetric(a[1..], b[1..]);
    }
  }

  /** Names not told apart are equal. */
  lemma {:induction false} LessTotal(a: string, b: string)
    ensures Less(a, b) || Less(b, a) || a == b
  {
    if a != [] && b != [] && a[0] == b[0] {
      LessTotal(a[1..], b[1..]);
      assert a == [a[0]] + a[1..] && b == [b[0]] + b[1..];
    }
  }

  lemma {:induction false} LessTransitive(a: string, b: string, c: string)
    requires Less(a, b) && Less(b, c)
    ensures Less(a, c)
  {
    if a != [] && a[0] == b[0] == c[0] {
      LessTransitive(a[1..], b[1..], c[1..]);
    }
  }

  lemma RouteLevels()
    ensures Levels(RouteBefore)
  {
    forall a, b | RouteBefore(a, b)
      ensures !RouteBefore(b, a)
    {
      LessAsymmetric(a.component, b.component);
    }
    forall a, b, c | RouteBefore(a, b) && !RouteBefore(c, b)
      ensures RouteBefore(a, c)
    {
      LevelStep(a.component, b.component, c.component);
    }
  }

  lemma LevelStep(a: string, b: string, c: string)
    ensures Less(a, b) && !Less(c, b) ==> Less(a, c)
  {
    if Less(a, b) && !Less(c, b) {
      LessTotal(b, c);
      if Less(b, c) {
        LessTransitive(a, b, c);
      }
    }
  }

  lemma LongerLevels()
    ensures Levels(LongerFirst)
  {
  }

  // ----- the table is a running best too

  lemma TableIsBest(routes: seq<Route>, listed: Route -> bool, path: string)
    ensures TablePick(routes, listed, path) == Best(routes, Both(listed, Matching(Rooted(path))), RouteBefore)
  {
    RouteLevels();
    FirstIsBest(Keep(routes, listed), Matching(Rooted(path)), RouteBefore);
    BestOfKept(routes, listed, Matching(Rooted(path)), RouteBefore);
  }

  // ----- the two resolvers agree

  /** Two prefixes of one path with the same trimmed length differ at most in the final slash. */
  lemma SameSpot(p: string, q: string, path: string)
    requires PathPrefixMatches(p, path) && PathPrefixMatches(q, path) && |Trim(p)| == |Trim(q)|
    ensures Trim(p) == Trim(q) && (p == q || p == q + "/" || q == p + "/")
  {
    MatchIsOfTrimmed(p, path);
    MatchIsOfTrimmed(q, path);
    assert p == Trim(p) || p == Trim(p) + "/";
    assert q == Trim(q) || q == Trim(q) + "/";
  }

  /** On a path that starts with a slash, comparing untrimmed lengths never contradicts comparing
      trimmed ones. */
  lemma LongerStaysLonger(p: string, q: string, path: string)
    requires PathPrefixMatches(p, path) && PathPrefixMatches(q, path) && HasPrefix(path, "/")
    requires |Trim(p)| < |Trim(q)|
    ensures |p| < |q|
  {
    MatchIsOfTrimmed(p, path);
    MatchIsOfTrimmed(q, path);
    assert path[0] == '/';
  }

  /** Rows are keyed by domain and prefix. */
  ghost predicate Keyed(routes: seq<Route>) {
    forall i, j :: 0 <= i < j < |routes| ==> routes[i].domain != routes[j].domain || routes[i].prefix != routes[j].prefix
  }

  ghost predicate NormalRows(routes: seq<Route>) {
    forall i :: 0 <= i < |routes| ==> Normal(routes[i].domain)
  }

  function Listed(host: string, present: Route -> bool): Route -> bool {
    (r: Route) => NormalizeDomain(r.domain) == host && present(r)
  }

  /** What the resolver answers: the scan's route, unless its component is gone. */
  function Resolved(routes: seq<Route>, host: string, path: string, present: Route -> bool): Option<Route> {
    var r := Scan(routes, host, path);
    if r.Some? && present(r.value) then r else None
  }

  function Tabled(routes: seq<Route>, host: string, path: string, present: Route -> bool): Option<Route> {
    TablePick(routes, Listed(host, present), path)
  }

  /** Row b names the place of s without the final slash, and the table's order does not put s first:
      b is not behind s by priority and then component name. */
  ghost predicate Shadows(b: Route, s: Route, present: Route -> bool) {
    present(b) && b.domain == s.domain && b.prefix + "/" == s.prefix && !RouteBefore(s, b)
  }

  ghost predicate Shadowed(routes: seq<Route>, s: Route, present: Route -> bool) {
    exists b :: b in routes && Shadows(b, s, present)
  }

  ghost predicate Candidate(r: Route, host: string, path: string) {
    r.domain == host && PathPrefixMatches(r.prefix, path)
  }

  /** "/" against a prefix of one other character: equally long as written, and not once trimmed. */
  ghost predicate OneCharacter(p: string, q: string) {
    p == "/" && |q| == 1 && q != "/"
  }

  /** That is the only way untrimmed and trimmed lengths can disagree. */
  lemma LongerOrOneCharacter(p: string, q: string, path: string)
    requires PathPrefixMatches(p, path) && PathPrefixMatches(q, path) && |Trim(p)| < |Trim(q)|
    ensures |p| < |q| || OneCharacter(p, q)
  {
    MatchIsOfTrimmed(p, path);
    MatchIsOfTrimmed(q, path);
  }

  lemma LongestOnAnyPath(p: string, q: string, path: string)
    requires PathPrefixMatches(p, path) && PathPrefixMatches(q, path) && |p| <= |q| && p != q
    ensures |Trim(p)| < |Trim(q)| || p + "/" == q || OneCharacter(q, p)
  {
    if |Trim(p)| == |Trim(q)| {
      SameSpot(p, q, path);
    } else if |Trim(q)| < |Trim(p)| {
      LongerOrOneCharacter(q, p, path);
    }
  }

  /** On any path: what the scan's pick leaves behind is shorter, its own sibling, or of one character
      while the pick is "/". */
  lemma ScanOnAnyPath(routes: seq<Route>, host: string, path: string) returns (j: nat)
    requires Keyed(routes) && NormalRows(routes) && Normal(host)
    ensures j <= |routes| && (Scan(routes, host, path).None? <==> j == |routes|)
    ensures j == |routes| ==> forall i :: 0 <= i < |routes| ==> !Candidate(routes[i], host, Rooted(path))
    ensures j < |routes| ==> Scan(routes, host, path) == Some(routes[j]) && Candidate(routes[j], host, Rooted(path))
    ensures j < |routes| ==>
              forall i :: 0 <= i < |routes| && i != j && Candidate(routes[i], host, Rooted(path)) ==>
                || |Trim(routes[i].prefix)| < |Trim(routes[j].prefix)|
                || routes[i].prefix + "/" == routes[j].prefix
                || OneCharacter(routes[j].prefix, routes[i].prefix)
  {
    LongerLevels();
    j := BestIsLeast(routes, Serving(host, Rooted(path)), LongerFirst);
    forall i | 0 <= i < |routes|
      ensures Serves(routes[i], host, Rooted(path)) <==> Candidate(routes[i], host, Rooted(path))
    {
      FoldIsEqual(routes[i].domain, host);
    }
    if j < |routes| {
      forall i | 0 <= i < |routes| && i != j && Candidate(routes[i], host, Rooted(path))
        ensures || |Trim(routes[i].prefix)| < |Trim(routes[j].prefix)|
                || routes[i].prefix + "/" == routes[j].prefix
                || OneCharacter(routes[j].prefix, routes[i].prefix)
      {
        LongestOnAnyPath(routes[i].prefix, routes[j].prefix, Rooted(path));
      }
    }
  }

  /** The scan's pick is the one candidate with the longest prefix, whatever the priorities say. */
  lemma ScanIsLongest(routes: seq<Route>, host: string, path: string) returns (j: nat)
    requires Keyed(routes) && NormalRows(routes) && Normal(host) && HasPrefix(path, "/")
    ensures j <= |routes| && (Scan(routes, host, path).None? <==> j == |routes|)
    ensures j == |routes| ==> forall i :: 0 <= i < |routes| ==> !Candidate(routes[i], host, path)
    ensures j < |routes| ==> Scan(routes, host, path) == Some(routes[j]) && Candidate(routes[j], host, path)
    ensures j < |routes| ==>
              forall i :: 0 <= i < |routes| && i != j && Candidate(routes[i], host, path) ==>
                |routes[i].prefix| < |routes[j].prefix|
                && (|Trim(routes[i].prefix)| < |Trim(routes[j].prefix)| || routes[i].prefix + "/" == routes[j].prefix)
  {
    j := ScanOnAnyPath(routes, host, path);
    if j < |routes| {
      forall i | 0 <= i < |routes| && i != j && Candidate(routes[i], host, path)
        ensures |routes[i].prefix| < |routes[j].prefix|
                && (|Trim(routes[i].prefix)| < |Trim(routes[j].prefix)| || routes[i].prefix + "/" == routes[j].prefix)
      {
        NoOneCharacter(routes[i].prefix, path);
        if |Trim(routes[i].prefix)| < |Trim(routes[j].prefix)| {
          LongerStaysLonger(routes[i].prefix, routes[j].prefix, path);
        }
      }
    }
  }

  /** A rooted path has no prefix of one character but the slash. */
  lemma NoOneCharacter(q: string, path: string)
    requires PathPrefixMatches(q, path) && HasPrefix(path, "/")
    ensures forall p :: !OneCharacter(p, q)
  {
    assert path[0] == '/';
    MatchIsOfTrimmed(q, path);
  }
}
