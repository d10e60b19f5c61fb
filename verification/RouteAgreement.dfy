/** When the sorted first-match table and the longest-prefix resolver give the same route. */
module RouteAgreement {
  import opened Registry
  import opened Text
  import opened StableSort
  import opened Domains
  import opened Routes

  /** The table's candidates are the listed rows that match. */
  lemma ListedIsCandidate(r: Route, host: string, path: string, present: Route -> bool)
    requires Normal(r.domain)
    ensures Both(Listed(host, present), Matching(Rooted(path)))(r) <==> present(r) && Candidate(r, host, Rooted(path))
  {
  }

  lemma TableEntry(routes: seq<Route>, host: string, path: string, present: Route -> bool) returns (k: nat)
    requires NormalRows(routes) && Normal(host)
    ensures k <= |routes| && (Tabled(routes, host, path, present).None? <==> k == |routes|)
    ensures k == |routes| ==> forall i :: 0 <= i < |routes| && present(routes[i]) ==> !Candidate(routes[i], host, Rooted(path))
    ensures k < |routes| ==> Tabled(routes, host, path, present) == Some(routes[k]) && Leads(routes, host, Rooted(path), present, k)
  {
    TableIsBest(routes, Listed(host, present), path);
    RouteLevels();
    k := BestIsLeast(routes, Both(Listed(host, present), Matching(Rooted(path))), RouteBefore);
    forall i | 0 <= i < |routes|
      ensures Both(Listed(host, present), Matching(Rooted(path)))(routes[i]) <==> present(routes[i]) && Candidate(routes[i], host, Rooted(path))
    {
      ListedIsCandidate(routes[i], host, path, present);
    }
  }

  // ----- the order the rows come in

  /** How the database orders text: a total preorder, which may well rank two spellings alike, in which
      a name comes before itself with a slash appended. */
  ghost predicate Collation(leq: (string, string) -> bool) {
    && (forall a, b :: leq(a, b) || leq(b, a))
    && (forall a, b, c :: leq(a, b) && leq(b, c) ==> leq(a, c))
    && (forall a: string :: !leq(a + "/", a))
  }

  predicate Alike(leq: (string, string) -> bool, a: string, b: string) {
    leq(a, b) && leq(b, a)
  }

  /** By domain, then priority, then path prefix. */
  predicate RowAtMost(leq: (string, string) -> bool, a: Route, b: Route) {
    if !Alike(leq, a.domain, b.domain) then leq(a.domain, b.domain)
    else if a.priority != b.priority then a.priority < b.priority
    else leq(a.prefix, b.prefix)
  }

  /** The rows' unique key, which the database compares by the collation too. */
  ghost predicate Separate(leq: (string, string) -> bool, routes: seq<Route>) {
    forall i, j :: 0 <= i < j < |routes| ==>
      !(Alike(leq, routes[i].domain, routes[j].domain) && Alike(leq, routes[i].prefix, routes[j].prefix))
  }

  ghost predicate Queried(leq: (string, string) -> bool, routes: seq<Route>) {
    Separate(leq, routes) && forall i, j :: 0 <= i < j < |routes| ==> RowAtMost(leq, routes[i], routes[j])
  }

  /** Of two siblings the table's order does not tell apart, the one without the slash comes first. */
  ghost predicate BareFirst(routes: seq<Route>) {
    forall i, j :: 0 <= i < |routes| && 0 <= j < |routes| && Siblings(routes[i], routes[j]) ==> i < j
  }

  ghost predicate Siblings(b: Route, s: Route) {
    b.domain == s.domain && b.prefix + "/" == s.prefix && !RouteBefore(b, s) && !RouteBefore(s, b)
  }

  lemma QueryOrder(leq: (string, string) -> bool, routes: seq<Route>)
    requires Collation(leq) && Queried(leq, routes)
    ensures BareFirst(routes) && Keyed(routes)
  {
    forall i, j | 0 <= i < |routes| && 0 <= j < |routes| && Siblings(routes[i], routes[j])
      ensures i < j
    {
      BareIsBefore(leq, routes[i], routes[j]);
    }
  }

  lemma BareIsBefore(leq: (string, string) -> bool, b: Route, s: Route)
    requires Collation(leq) && Siblings(b, s)
    ensures !RowAtMost(leq, s, b) && b != s
  {
    assert s.prefix[..|s.prefix| - 1] == b.prefix;
    assert !leq(b.prefix + "/", b.prefix);
  }

  /** The query's order fixes the list: the same rows always come in the same order, so the table's
      choice is a function of the set of rows, for every gateway and at every refresh. */
  lemma {:induction false} QueryFixesOrder(leq: (string, string) -> bool, a: seq<Route>, b: seq<Route>)
    requires Collation(leq) && Queried(leq, a) && Queried(leq, b) && SameRows(a, b)
    ensures a == b
  {
    assert b != [] ==> b[0] in b;
    if a != [] {
      assert a[0] in a && b != [];
      FirstIsFirst(leq, a, b);
      assert forall r :: r in a[1..] <==> r in a && r != a[0] by {
        assert a == [a[0]] + a[1..];
        NotAgain(leq, a);
      }
      assert forall r :: r in b[1..] <==> r in b && r != b[0] by {
        assert b == [b[0]] + b[1..];
        NotAgain(leq, b);
      }
      QueryFixesOrder(leq, a[1..], b[1..]);
      assert a == [a[0]] + a[1..] && b == [b[0]] + b[1..];
    }
  }

  lemma NotAgain(leq: (string, string) -> bool, a: seq<Route>)
    requires Collation(leq) && Queried(leq, a) && a != []
    ensures a[0] !in a[1..]
  {
    forall i | 0 < i < |a|
      ensures a[i] != a[0]
    {
      assert leq(a[0].domain, a[0].domain) && leq(a[0].prefix, a[0].prefix);
    }
  }

  lemma FirstIsFirst(leq: (string, string) -> bool, a: seq<Route>, b: seq<Route>)
    requires Collation(leq) && Queried(leq, a) && Queried(leq, b) && a != [] && b != [] && a[0] in b && b[0] in a
    ensures a[0] == b[0]
  {
    var i :| 0 <= i < |a| && a[i] == b[0];
    var j :| 0 <= j < |b| && b[j] == a[0];
    assert i > 0 ==> RowAtMost(leq, a[0], a[i]);
    assert j > 0 ==> RowAtMost(leq, b[0], b[j]);
  }

  lemma TableFollowsRows(leq: (string, string) -> bool, a: seq<Route>, b: seq<Route>, host: string, path: string, present: Route -> bool)
    requires Collation(leq) && Queried(leq, a) && Queried(leq, b) && SameRows(a, b)
    ensures Tabled(a, host, path, present) == Tabled(b, host, path, present)
  {
    QueryFixesOrder(leq, a, b);
  }

  // ----- one path

  /** The pick is "/" while a row of one other character matches: then the resolver went by priority
      where the table goes by length.  No rooted path allows it. */
  ghost predicate Outranked(routes: seq<Route>, s: Route, host: string, path: string, present: Route -> bool) {
    exists b :: b in routes && present(b) && Candidate(b, host, path) && OneCharacter(s.prefix, b.prefix)
  }

  /** For any one path: the two agree unless the row the scan picks is shadowed or outranked, or its
      component is gone while some other route with a component still matches. */
  lemma AgreeOnPath(routes: seq<Route>, host: string, path: string, present: Route -> bool) returns (j: nat)
    requires Keyed(routes) && BareFirst(routes) && NormalRows(routes) && Normal(host)
    ensures j <= |routes| && (Scan(routes, host, path).None? <==> j == |routes|)
    ensures j < |routes| ==> Scan(routes, host, path) == Some(routes[j])
    ensures Tabled(routes, host, path, present) == Resolved(routes, host, path, present) <==>
              j < |routes| ==>
                if present(routes[j]) then
                  !Shadowed(routes, routes[j], present) && !Outranked(routes, routes[j], host, Rooted(path), present)
                else forall i :: 0 <= i < |routes| && present(routes[i]) ==> !Candidate(routes[i], host, Rooted(path))
  {
    j := ScanOnAnyPath(routes, host, path);
    var k := TableEntry(routes, host, path, present);
    if j < |routes| && present(routes[j]) {
      if k == j {
        TableShows(routes, host, Rooted(path), present, j);
      } else {
        assert routes[k] != routes[j];
        TableHides(routes, host, Rooted(path), present, j, k);
      }
    }
  }

  lemma RootedIsNotOutranked(routes: seq<Route>, s: Route, host: string, path: string, present: Route -> bool)
    requires HasPrefix(path, "/")
    ensures !Outranked(routes, s, host, path, present)
  {
    forall b | b in routes && Candidate(b, host, path)
      ensures !OneCharacter(s.prefix, b.prefix)
    {
      NoOneCharacter(b.prefix, path);
    }
  }

  /** What TableEntry says of its pick. */
  ghost predicate Leads(routes: seq<Route>, host: string, path: string, present: Route -> bool, k: nat) {
    && k < |routes| && present(routes[k]) && Candidate(routes[k], host, path)
    && forall i :: 0 <= i < |routes| && i != k && present(routes[i]) && Candidate(routes[i], host, path) ==>
         if i < k then RouteBefore(routes[k], routes[i]) else !RouteBefore(routes[i], routes[k])
  }

  lemma TableShows(routes: seq<Route>, host: string, path: string, present: Route -> bool, j: nat)
    requires Leads(routes, host, path, present, j) && BareFirst(routes)
    ensures !Shadowed(routes, routes[j], present) && !Outranked(routes, routes[j], host, path, present)
  {
    RouteLevels();
    forall i | 0 <= i < |routes|
      ensures !Shadows(routes[i], routes[j], present)
    {
      SiblingMatches(routes[i], routes[j], path);
      assert Shadows(routes[i], routes[j], present) && !RouteBefore(routes[i], routes[j]) ==> Siblings(routes[i], routes[j]);
    }
    forall i | 0 <= i < |routes| && present(routes[i]) && Candidate(routes[i], host, path)
      ensures !OneCharacter(routes[j].prefix, routes[i].prefix)
    {
    }
  }

  lemma TableHides(routes: seq<Route>, host: string, path: string, present: Route -> bool, j: nat, k: nat)
    requires Leads(routes, host, path, present, k) && k != j
    requires j < |routes| && present(routes[j]) && Candidate(routes[j], host, path)
    requires || |Trim(routes[k].prefix)| < |Trim(routes[j].prefix)|
             || routes[k].prefix + "/" == routes[j].prefix
             || OneCharacter(routes[j].prefix, routes[k].prefix)
    ensures Shadowed(routes, routes[j], present) || Outranked(routes, routes[j], host, path, present)
  {
    RouteLevels();
    assert !(|Trim(routes[k].prefix)| < |Trim(routes[j].prefix)|);
    assert routes[k] in routes;
    assert Shadows(routes[k], routes[j], present) || OneCharacter(routes[j].prefix, routes[k].prefix);
  }

  /** A row the table does not sort behind its slashed sibling matches whatever the sibling matches. */
  lemma SiblingMatches(r: Route, q: Route, path: string)
    ensures r.prefix + "/" == q.prefix && PathPrefixMatches(q.prefix, path) && !RouteBefore(q, r) ==>
              PathPrefixMatches(r.prefix, path)
  {
    if r.prefix + "/" == q.prefix && !RouteBefore(q, r) {
      assert q.prefix[..|q.prefix| - 1] == r.prefix;
      assert Trim(q.prefix) == r.prefix == Trim(r.prefix);
      MatchIsOfTrimmed(q.prefix, path);
      MatchIsOfTrimmed(r.prefix, path);
    }
  }

  // ----- over all paths

  ghost predicate AgreeEverywhere(routes: seq<Route>, host: string, present: Route -> bool) {
    forall path :: HasPrefix(path, "/") ==> Tabled(routes, host, path, present) == Resolved(routes, host, path, present)
  }

  ghost predicate NoneShadowed(routes: seq<Route>, host: string, present: Route -> bool) {
    forall j :: 0 <= j < |routes| && routes[j].domain == host && HasPrefix(routes[j].prefix, "/") ==> !Shadowed(routes, routes[j], present)
  }

  /** A path that only the catch-all matches among prefixes shorter than n. */
  function FarPath(n: nat): (path: string)
    ensures |path| == n + 1 && path[0] == '/' && forall i :: 0 < i <= n ==> path[i] == 'z'
  {
    "/" + seq(n, i => 'z')
  }

  function LongestPrefix(routes: seq<Route>): (n: nat)
    ensures forall i :: 0 <= i < |routes| ==> |routes[i].prefix| <= n
  {
    if routes == [] then 0
    else
      var n := LongestPrefix(routes[..|routes| - 1]);
      assert forall i :: 0 <= i < |routes| - 1 ==> routes[..|routes| - 1][i] == routes[i];
      if |routes[|routes| - 1].prefix| > n then |routes[|routes| - 1].prefix| else n
  }

  /** A path for which nothing longer than p matches. */
  function PathOf(routes: seq<Route>, p: string): string {
    if p == "" then FarPath(LongestPrefix(routes)) else p
  }

  lemma NothingLonger(routes: seq<Route>, p: string, i: nat)
    requires i < |routes| && PathPrefixMatches(routes[i].prefix, PathOf(routes, p))
    ensures |Trim(routes[i].prefix)| <= |p|
  {
    MatchIsOfTrimmed(routes[i].prefix, PathOf(routes, p));
  }

  /** A slashed row matches the path made for it. */
  lemma OwnPath(routes: seq<Route>, r: Route)
    requires HasPrefix(r.prefix, "/") && r.prefix == Trim(r.prefix) + "/"
    ensures HasPrefix(PathOf(routes, Trim(r.prefix)), "/") && PathPrefixMatches(r.prefix, PathOf(routes, Trim(r.prefix)))
  {
    var path := PathOf(routes, Trim(r.prefix));
    assert path[0] == '/' && path[..1] == "/";
    MatchIsOfTrimmed(r.prefix, path);
  }

  /** On the path made for row j's prefix, the scan picks row j. */
  lemma ScanPicks(routes: seq<Route>, host: string, j: nat)
    requires Keyed(routes) && NormalRows(routes) && Normal(host) && j < |routes| && routes[j].domain == host
    requires HasPrefix(routes[j].prefix, "/") && routes[j].prefix == Trim(routes[j].prefix) + "/"
    ensures HasPrefix(PathOf(routes, Trim(routes[j].prefix)), "/")
    ensures Candidate(routes[j], host, PathOf(routes, Trim(routes[j].prefix)))
    ensures Scan(routes, host, PathOf(routes, Trim(routes[j].prefix))) == Some(routes[j])
  {
    var path := PathOf(routes, Trim(routes[j].prefix));
    OwnPath(routes, routes[j]);
    var m := ScanIsLongest(routes, host, path);
    assert m < |routes|;
    NothingLonger(routes, Trim(routes[j].prefix), m);
  }

  /** For all paths at once: the table is the resolver exactly when no row that ends in a slash is
      shadowed by its sibling without one. */
  lemma AgreeIffUnshadowed(routes: seq<Route>, host: string, present: Route -> bool)
    requires Keyed(routes) && BareFirst(routes) && NormalRows(routes) && Normal(host) && forall i :: 0 <= i < |routes| ==> present(routes[i])
    ensures AgreeEverywhere(routes, host, present) <==> NoneShadowed(routes, host, present)
  {
    if AgreeEverywhere(routes, host, present) {
      forall j | 0 <= j < |routes| && routes[j].domain == host && HasPrefix(routes[j].prefix, "/")
        ensures !Shadowed(routes, routes[j], present)
      {
        if routes[j].prefix == Trim(routes[j].prefix) + "/" {
          AgreedRowIsUnshadowed(routes, host, present, j);
        }
      }
    }
    if NoneShadowed(routes, host, present) {
      forall path | HasPrefix(path, "/")
        ensures Tabled(routes, host, path, present) == Resolved(routes, host, path, present)
      {
        UnshadowedAgrees(routes, host, path, present);
      }
    }
  }

  lemma UnshadowedAgrees(routes: seq<Route>, host: string, path: string, present: Route -> bool)
    requires Keyed(routes) && BareFirst(routes) && NormalRows(routes) && Normal(host) && forall i :: 0 <= i < |routes| ==> present(routes[i])
    requires HasPrefix(path, "/") && NoneShadowed(routes, host, present)
    ensures Tabled(routes, host, path, present) == Resolved(routes, host, path, present)
  {
    var j := AgreeOnPath(routes, host, path, present);
    if j < |routes| {
      PickIsRooted(routes, host, path, j);
      RootedIsNotOutranked(routes, routes[j], host, path, present);
    }
  }

  lemma AgreedRowIsUnshadowed(routes: seq<Route>, host: string, present: Route -> bool, j: nat)
    requires Keyed(routes) && BareFirst(routes) && NormalRows(routes) && Normal(host) && forall i :: 0 <= i < |routes| ==> present(routes[i])
    requires AgreeEverywhere(routes, host, present) && j < |routes| && routes[j].domain == host
    requires HasPrefix(routes[j].prefix, "/") && routes[j].prefix == Trim(routes[j].prefix) + "/"
    ensures !Shadowed(routes, routes[j], present)
  {
    var path := PathOf(routes, Trim(routes[j].prefix));
    ScanPicks(routes, host, j);
    var m := AgreeOnPath(routes, host, path, present);
    assert Tabled(routes, host, path, present) == Resolved(routes, host, path, present);
    assert m < |routes| && routes[m] == routes[j];
  }

  /** What the scan picks for a rooted path, if it ends in a slash, starts with one. */
  lemma PickIsRooted(routes: seq<Route>, host: string, path: string, j: nat)
    requires Keyed(routes) && NormalRows(routes) && Normal(host) && HasPrefix(path, "/")
    requires j < |routes| && Scan(routes, host, path) == Some(routes[j])
    ensures routes[j].domain == host && Candidate(routes[j], host, path)
    ensures routes[j].prefix == Trim(routes[j].prefix) + "/" ==> HasPrefix(routes[j].prefix, "/")
  {
    var m := ScanIsLongest(routes, host, path);
    assert routes[m] == routes[j];
    MatchIsOfTrimmed(routes[j].prefix, path);
    assert path[0] == '/';
  }

  /** Two rows for one place: the resolver serves "/a/" (longer as written), the table "/a" (its
      priority is lower). */
  lemma SiblingsDisagree()
    ensures var bare := Route("h", "/a", "app", "x", "", 0);
            var slashed := Route("h", "/a/", "app", "y", "", 1);
            Resolved([bare, slashed], "h", "/a", _ => true) == Some(slashed)
            && Tabled([bare, slashed], "h", "/a", _ => true) == Some(bare)
  {
    var bare := Route("h", "/a", "app", "x", "", 0);
    var slashed := Route("h", "/a/", "app", "y", "", 1);
    PlainHost();
    StagesFixed("h");
    assert Trim(bare.prefix) == "/a" && Trim(slashed.prefix) == "/a";
    TwoScanned(bare, slashed, Serving("h", "/a"), LongerFirst);
    TableIsBest([bare, slashed], Listed("h", _ => true), "/a");
    TwoScanned(bare, slashed, Both(Listed("h", _ => true), Matching("/a")), RouteBefore);
  }

  lemma PlainHost()
    ensures Normal("h")
  {
    assert Lower("h") == "h" && TrimSpace("h") == "h";
    assert Domains.LastColon("h") == -1 by {
      assert "h"[0] != ':';
    }
    assert WithoutPort("h") == "h";
  }

  /** A path with no leading slash: "/" and "x" are equally long as written, so the resolver goes by
      priority where the table goes by length. */
  lemma UnrootedDisagree()
    ensures var all := Route("h", "/", "app", "x", "", 0);
            var one := Route("h", "x", "app", "y", "", 1);
            Resolved([all, one], "h", "x/y", _ => true) == Some(all)
            && Tabled([all, one], "h", "x/y", _ => true) == Some(one)
  {
    var all := Route("h", "/", "app", "x", "", 0);
    var one := Route("h", "x", "app", "y", "", 1);
    PlainHost();
    OneMatches();
    UnrootedScan(all, one);
    UnrootedTable(all, one);
  }

  lemma OneMatches()
    ensures PathPrefixMatches("x", "x/y") && PathPrefixMatches("/", "x/y") && Trim("x") == "x" && Trim("/") == ""
  {
    assert "x/y"[..2] == "x/";
  }

  lemma UnrootedScan(all: Route, one: Route)
    requires all.domain == one.domain == "h" && all.prefix == "/" && one.prefix == "x" && all.priority < one.priority
    ensures Scan([all, one], "h", "x/y") == Some(all)
  {
    OneMatches();
    TwoScanned(all, one, Serving("h", "x/y"), LongerFirst);
  }

  lemma UnrootedTable(all: Route, one: Route)
    requires Normal("h") && all.domain == one.domain == "h" && all.prefix == "/" && one.prefix == "x"
    ensures Tabled([all, one], "h", "x/y", _ => true) == Some(one)
  {
    OneMatches();
    TableIsBest([all, one], Listed("h", _ => true), "x/y");
    TwoScanned(all, one, Both(Listed("h", _ => true), Matching("x/y")), RouteBefore);
  }

  /** A stored "a.com.": the table serves it to "a.com", the resolver does not find it. */
  lemma DottedRowDisagrees()
    ensures var dotted := Route("a.com.", "/", "app", "x", "", 0);
            Normal("a.com")
            && Tabled([dotted], "a.com", "/", _ => true) == Some(dotted)
            && Resolved([dotted], "a.com", "/", _ => true) == None
  {
    var dotted := Route("a.com.", "/", "app", "x", "", 0);
    DottedName();
    assert [dotted][..0] == [];
    TableIsBest([dotted], Listed("a.com", _ => true), "/");
    assert Best([dotted], Both(Listed("a.com", _ => true), Matching("/")), RouteBefore) == Some(dotted);
    assert !EqualFold("a.com.", "a.com") by {
      assert |Lower("a.com.")| != |Lower("a.com")|;
    }
  }

  lemma DottedName()
    ensures NormalizeDomain("a.com.") == "a.com" && Normal("a.com")
  {
    assert Lower("a.com.") == "a.com." && Lower("a.com") == "a.com";
    assert TrimSpace("a.com.") == "a.com." && TrimSpace("a.com") == "a.com";
    assert Domains.LastColon("a.com.") == -1 by {
      assert forall k :: 0 <= k < 6 ==> "a.com."[k] != ':';
    }
    assert Domains.LastColon("a.com") == -1 by {
      assert forall k :: 0 <= k < 5 ==> "a.com"[k] != ':';
    }
  }

  lemma TwoScanned<T>(x: T, y: T, p: T -> bool, less: (T, T) -> bool)
    requires p(x) && p(y)
    ensures Best([x, y], p, less) == Some(if less(y, x) then y else x)
  {
    assert [x, y][..1] == [x] && [x][..0] == [];
    assert Best([x], p, less) == Some(x);
  }

  // ----- prefixes that stay distinct

  ghost predicate DistinctTrimmed(routes: seq<Route>) {
    forall i, j :: 0 <= i < j < |routes| && routes[i].domain == routes[j].domain ==> Trim(routes[i].prefix) != Trim(routes[j].prefix)
  }

  /** With prefixes that differ after trimming, the table is the resolver on every path. */
  lemma TableIsResolver(routes: seq<Route>, host: string, present: Route -> bool)
    requires DistinctTrimmed(routes) && NormalRows(routes) && Normal(host)
    requires forall i :: 0 <= i < |routes| ==> present(routes[i])
    ensures AgreeEverywhere(routes, host, present)
  {
    forall i, j | 0 <= i < |routes| && 0 <= j < |routes| && routes[i].domain == routes[j].domain && routes[i].prefix + "/" == routes[j].prefix
      ensures RouteBefore(routes[j], routes[i])
    {
      assert routes[j].prefix[..|routes[j].prefix| - 1] == routes[i].prefix;
      assert Trim(routes[j].prefix) == routes[i].prefix;
      assert Trim(routes[i].prefix) != Trim(routes[j].prefix);
    }
    AgreeIffUnshadowed(routes, host, present);
  }

  // ----- the order of the rows

  ghost predicate SameRows(a: seq<Route>, b: seq<Route>) {
    forall r :: r in a <==> r in b
  }

  /** Rows in normal form: two databases that hold the same rows and order text differently, and so
      list the rows differently, still give one table. */
  lemma TableInAnyCollation(leqA: (string, string) -> bool, a: seq<Route>, leqB: (string, string) -> bool, b: seq<Route>,
                            host: string, path: string, present: Route -> bool)
    requires Collation(leqA) && Queried(leqA, a) && Collation(leqB) && Queried(leqB, b) && SameRows(a, b)
    requires NormalRows(a) && Normal(host)
    ensures Tabled(a, host, path, present) == Tabled(b, host, path, present)
  {
    QueryOrder(leqA, a);
    QueryOrder(leqB, b);
    assert NormalRows(b) by {
      assert forall i :: 0 <= i < |b| ==> b[i] in a;
    }
    var k := TableEntry(a, host, path, present);
    var m := TableEntry(b, host, path, present);
    if k < |a| {
      assert a[k] in b;
    }
    if m < |b| {
      assert b[m] in a;
    }
    if k < |a| && m < |b| && a[k] != b[m] {
      NotLedByBare(b, host, Rooted(path), present, m, a[k]);
      NotLedByBare(a, host, Rooted(path), present, k, b[m]);
      LeadersAreSiblings(a, b, host, Rooted(path), present, k, m);
    }
  }

  /** The leading rows of two lists of the same rows are one row or siblings. */
  lemma LeadersAreSiblings(a: seq<Route>, b: seq<Route>, host: string, path: string, present: Route -> bool, k: nat, m: nat)
    requires Keyed(a) && SameRows(a, b)
    requires Leads(a, host, path, present, k) && Leads(b, host, path, present, m) && a[k] != b[m]
    ensures Siblings(a[k], b[m]) || Siblings(b[m], a[k])
  {
    var x, y := a[k], b[m];
    assert y in a && x in b;
    var i :| 0 <= i < |a| && a[i] == y;
    var j :| 0 <= j < |b| && b[j] == x;
    RouteLevels();
    assert !RouteBefore(x, y) && !RouteBefore(y, x);
    SameSpot(x.prefix, y.prefix, path);
  }

  /** A list with the bare row first is not led by its sibling. */
  lemma NotLedByBare(a: seq<Route>, host: string, path: string, present: Route -> bool, k: nat, bare: Route)
    requires BareFirst(a) && Leads(a, host, path, present, k) && bare in a && present(bare) && Candidate(bare, host, path)
    ensures !Siblings(bare, a[k])
  {
    var i :| 0 <= i < |a| && a[i] == bare;
    assert Siblings(bare, a[k]) ==> i < k;
  }
}
