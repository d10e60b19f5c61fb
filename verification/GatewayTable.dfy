/** The routing table and the transport pool as the gateway updates them, and its refresh. */
module GatewayTable {
  import opened Registry
  import opened StableSort
  import opened Domains
  import opened Routes
  import opened RouteTable
  import opened LoadBalancer
  import PortPool
  import RouteAgreement

  /** The naming store's answer to one listing of healthy instances: group, service, cluster. */
  type Query = (string, string, string) -> Option<seq<Instance>>

  function Listing(query: Query, c: Component): Option<seq<Instance>> {
    query(c.group, c.service, c.cluster)
  }

  class Table {
    var domains: map<string, seq<Entry>>
    var services: map<string, seq<Instance>>
    var names: seq<string>

    constructor ()
      ensures domains == map[] && services == map[] && names == []
    {
      domains, services, names := map[], map[], [];
    }

    function Snap(): Snapshot
      reads this
    {
      Snapshot(domains, services)
    }

    ghost predicate Valid()
      reads this
    {
      forall d :: d in names <==> d in domains
    }

    /** Rebuilds everything, or on any failed read leaves everything as it was. */
    method Refresh(routes: Option<seq<Route>>, comps: Option<Components>, query: Query)
      returns (ok: bool)
      requires Valid()
      modifies this
      ensures Valid()
      ensures !ok ==> Snap() == old(Snap()) && names == old(names)
      ensures ok <== routes.Some? && comps.Some? && forall c: Component :: Listing(query, c).Some?
      ensures ok ==> routes.Some? && comps.Some? && Built(Snap(), routes.value, comps.value)
      ensures ok ==> Loaded(domains, services, query)
      ensures ok ==> Ascending(names, Less)
    {
      if routes.None? || comps.None? {
        return false;
      }
      var built, sorted, instances, known := Build(routes.value, comps.value, query);
      if !built {
        return false;
      }
      domains, services, names := sorted, instances, known;
      ok := true;
    }

    /** The entry a request is served by, the instances it may be sent to, and the port conflict the
        target carries. */
    method LookupTarget(host: string, path0: string, filters: map<string, string>)
      returns (found: Option<(Entry, seq<Instance>)>, conflict: Option<PortPool.PortConflict>)
      ensures found == Lookup(Snap(), host, path0, filters)
      ensures found.Some? ==>
                var c := found.value.0.comp;
                var all := Selected(ServiceOf(Snap(), c), c.cluster);
                conflict.None? <==> all == [] || PortPool.Agree(all, c.declared)
    {
      var d := NormalizeDomain(host);
      var path := path0;
      if path == "" {
        path := "/";
      }
      found, conflict := None, None;
      if d !in domains {
        return;
      }
      var entries := domains[d];
      for i := 0 to |entries|
        invariant First(entries, EntryMatching(path)) == First(entries[i..], EntryMatching(path))
      {
        var e := entries[i];
        if !PathPrefixMatches(e.route.prefix, path) {
          continue;
        }
        var instances := if KeyOf(e.comp) in services then services[KeyOf(e.comp)] else [];
        instances, conflict := SelectForwardable(instances, e.comp.cluster, e.comp.declared);
        if |filters| > 0 {
          instances := FilterInstancesByMeta(instances, filters);
        }
        found := Some((e, instances));
        return;
      }
    }

    /** The selection-state key of every target this table can resolve, each once. */
    method TargetKeys() returns (out: seq<string>)
      ensures Ascending(out, Less) && forall key :: key in out <==> KeyListed(Snap(), key)
    {
      var seen: set<string> := {};
      var left := domains.Keys;
      while left != {}
        invariant left <= domains.Keys
        invariant forall key :: key in seen <==> KeyUnder(domains, domains.Keys - left, key)
        decreases left
      {
        var d :| d in left;
        ghost var before := seen;
        for i := 0 to |domains[d]|
          invariant forall key :: key in seen <==> key in before || exists j :: 0 <= j < i && EntryKey(domains[d][j]) == key
        {
          seen := seen + {EntryKey(domains[d][i])};
        }
        left := left - {d};
      }
      out := SortStrings(seen);
    }

    /** Every target declared for a domain, each with all its eligible instances. */
    method AllTargets(domain: string) returns (out: seq<(Entry, seq<Instance>)>)
      ensures |out| == |EntriesUnder(Snap(), domain)|
      ensures forall i :: 0 <= i < |out| ==> out[i] == (EntriesUnder(Snap(), domain)[i], OfferedBy(Snap(), EntriesUnder(Snap(), domain)[i]))
    {
      var d := NormalizeDomain(domain);
      out := [];
      if d !in domains {
        return;
      }
      for i := 0 to |domains[d]|
        invariant |out| == i
        invariant forall j :: 0 <= j < i ==> out[j] == (domains[d][j], OfferedBy(Snap(), domains[d][j]))
      {
        var c := domains[d][i].comp;
        var narrowed := SelectInstances(if KeyOf(c) in services then services[KeyOf(c)] else [], c.cluster);
        out := out + [(domains[d][i], narrowed)];
      }
    }
  }

  ghost predicate KeyUnder(domains: map<string, seq<Entry>>, some: set<string>, key: string) {
    exists d, i :: d in some && d in domains && 0 <= i < |domains[d]| && EntryKey(domains[d][i]) == key
  }

  method Build(routes: seq<Route>, comps: Components, query: Query)
    returns (ok: bool, domains: map<string, seq<Entry>>, services: map<string, seq<Instance>>, names: seq<string>)
    ensures (forall c: Component :: Listing(query, c).Some?) ==> ok
    ensures ok ==> Built(Snapshot(domains, services), routes, comps) && Loaded(domains, services, query)
    ensures ok ==> Ascending(names, Less) && forall d :: d in names <==> d in domains
  {
    var entered := Enter(routes, comps);
    domains := SortAll(entered);
    ok, services := LoadServices(domains, query);
    if !ok {
      return false, domains, services, [];
    }
    names := SortStrings(domains.Keys);
    SortedIsBuilt(entered, domains, services, routes, comps);
  }

  /** Every entry's service is loaded ... */
  ghost predicate Covers(domains: map<string, seq<Entry>>, done: set<string>, services: map<string, seq<Instance>>) {
    forall d, e :: d in done && d in domains && e in domains[d] ==> KeyOf(e.comp) in services
  }

  /** ... by a query made for some entry with its key. */
  ghost predicate Queried(domains: map<string, seq<Entry>>, key: string, instances: seq<Instance>, query: Query) {
    exists d, e :: d in domains && e in domains[d] && KeyOf(e.comp) == key && Listing(query, e.comp) == Some(instances)
  }

  ghost predicate AllQueried(domains: map<string, seq<Entry>>, services: map<string, seq<Instance>>, query: Query) {
    forall key :: key in services ==> Queried(domains, key, services[key], query)
  }

  ghost predicate Loaded(domains: map<string, seq<Entry>>, services: map<string, seq<Instance>>, query: Query) {
    Covers(domains, domains.Keys, services) && AllQueried(domains, services, query)
  }

  ghost predicate In(domains: map<string, seq<Entry>>, e: Entry) {
    exists d :: d in domains && e in domains[d]
  }

  /** Each component's own listing is what the cache holds for it. */
  ghost predicate OwnAnswers(domains: map<string, seq<Entry>>, services: map<string, seq<Instance>>, query: Query) {
    forall e :: In(domains, e) ==> KeyOf(e.comp) in services && Listing(query, e.comp) == Some(services[KeyOf(e.comp)])
  }

  ghost predicate SameListing(a: Component, b: Component) {
    a.group == b.group && a.service == b.service && a.cluster == b.cluster
  }

  /** Components that share a cache key are listed by one query. */
  ghost predicate OneQueryPerKey(domains: map<string, seq<Entry>>) {
    forall e, f :: In(domains, e) && In(domains, f) && KeyOf(e.comp) == KeyOf(f.comp) ==> SameListing(e.comp, f.comp)
  }

  /** Whatever the naming store answers and in whatever order the cache is filled. */
  ghost predicate AlwaysOwnAnswers(domains: map<string, seq<Entry>>) {
    forall query, services :: Loaded(domains, services, query) ==> OwnAnswers(domains, services, query)
  }

  lemma OneQueryGivesOwn(domains: map<string, seq<Entry>>, services: map<string, seq<Instance>>, query: Query)
    requires OneQueryPerKey(domains) && Loaded(domains, services, query)
    ensures OwnAnswers(domains, services, query)
  {
    forall e | In(domains, e)
      ensures KeyOf(e.comp) in services && Listing(query, e.comp) == Some(services[KeyOf(e.comp)])
    {
      var d :| d in domains && e in domains[d];
      var key := KeyOf(e.comp);
      assert Queried(domains, key, services[key], query);
      var d', f :| d' in domains && f in domains[d'] && KeyOf(f.comp) == key && Listing(query, f.comp) == Some(services[key]);
      assert In(domains, f);
    }
  }

  /** Some entry with the key. */
  ghost function Chosen(domains: map<string, seq<Entry>>, key: string): (e: Entry)
    requires exists e :: In(domains, e) && KeyOf(e.comp) == key
    ensures In(domains, e) && KeyOf(e.comp) == key
  {
    var e :| In(domains, e) && KeyOf(e.comp) == key; e
  }

  ghost function Keys(domains: map<string, seq<Entry>>): (keys: set<string>)
    ensures forall key :: key in keys <==> exists e :: In(domains, e) && KeyOf(e.comp) == key
  {
    var keys := set d, e | d in domains && e in domains[d] :: KeyOf(e.comp);
    assert forall e :: In(domains, e) ==> KeyOf(e.comp) in keys;
    keys
  }

  /** A cache filled from one chosen entry per key. */
  lemma SomeLoad(domains: map<string, seq<Entry>>, query: Query) returns (services: map<string, seq<Instance>>)
    requires forall c: Component :: Listing(query, c).Some?
    ensures Loaded(domains, services, query)
  {
    services := map key | key in Keys(domains) :: Listing(query, Chosen(domains, key).comp).value;
    forall d, e | d in domains && e in domains[d]
      ensures KeyOf(e.comp) in services
    {
      assert In(domains, e);
    }
    forall key | key in services
      ensures Queried(domains, key, services[key], query)
    {
      var e := Chosen(domains, key);
      var d :| d in domains && e in domains[d];
    }
  }

  /** The cache is keyed by group and service, the query also names the cluster: every component is
      sure to get its own instances exactly when components with one key share group, service and
      cluster as stored. */
  lemma ServicesExactIff(domains: map<string, seq<Entry>>)
    ensures AlwaysOwnAnswers(domains) <==> OneQueryPerKey(domains)
  {
    if OneQueryPerKey(domains) {
      forall query, services | Loaded(domains, services, query)
        ensures OwnAnswers(domains, services, query)
      {
        OneQueryGivesOwn(domains, services, query);
      }
    } else {
      var e, f :| In(domains, e) && In(domains, f) && KeyOf(e.comp) == KeyOf(f.comp) && !SameListing(e.comp, f.comp);
      var inst := Instance("s", "", "10.0.0.1", 80, 1.0, true, map[]);
      var query := OnlyOthers(e.comp, inst);
      OthersDiffer(e.comp, f.comp, inst);
      var services := SomeLoad(domains, query);
      assert !OwnAnswers(domains, services, query);
    }
  }

  /** A store that has one instance for every listing but that of component c. */
  function OnlyOthers(c: Component, inst: Instance): Query {
    (group, service, cluster) =>
      Some(if group == c.group && service == c.service && cluster == c.cluster then [] else [inst])
  }

  lemma OthersDiffer(c: Component, d: Component, inst: Instance)
    requires !SameListing(c, d)
    ensures Listing(OnlyOthers(c, inst), c) != Listing(OnlyOthers(c, inst), d)
  {
  }

  /** Two components of one service in two clusters, each with a live instance of its own: whichever
      query filled the cache, the other component is left with nothing to dial. */
  lemma OtherClusterStarves(domains: map<string, seq<Entry>>, services: map<string, seq<Instance>>, query: Query,
                           e: Entry, f: Entry, i: Instance, j: Instance)
    requires domains == map["h" := [e, f]] && e.route.prefix == "/a" && f.route.prefix == "/b"
    requires e.comp.group == f.comp.group && e.comp.service == f.comp.service
    requires e.comp.cluster != "" && f.comp.cluster != "" && e.comp.cluster != f.comp.cluster
    requires e.comp.declared == f.comp.declared == 0
    requires i.enabled && i.clusterName == e.comp.cluster && Listing(query, e.comp) == Some([i])
    requires j.enabled && j.clusterName == f.comp.cluster && Listing(query, f.comp) == Some([j])
    requires Loaded(domains, services, query)
    ensures var s := Snapshot(domains, services);
            || Lookup(s, "h", "/a", map[]) == Some((e, []))
            || Lookup(s, "h", "/b", map[]) == Some((f, []))
  {
    var key := KeyOf(e.comp);
    assert e in domains["h"];
    assert Queried(domains, key, services[key], query);
    RouteAgreement.PlainHost();
    assert First(domains["h"], EntryMatching("/a")) == Some(e);
    assert !PathPrefixMatches("/a", "/b");
    assert First(domains["h"], EntryMatching("/b")) == Some(f) by {
      assert domains["h"][1..] == [f];
    }
    NoneForwardable(i, f.comp.cluster);
    NoneForwardable(j, e.comp.cluster);
  }

  /** Such a gateway: component x in cluster c1, component y in cluster c2, one instance in each. */
  lemma StarvedGateway() returns (domains: map<string, seq<Entry>>, services: map<string, seq<Instance>>, query: Query, x: Entry, y: Entry)
    ensures Loaded(domains, services, query) && In(domains, x) && In(domains, y)
    ensures Forwardable(Listing(query, x.comp).UnwrapOr([]), x.comp.cluster, 0) != []
    ensures Forwardable(Listing(query, y.comp).UnwrapOr([]), y.comp.cluster, 0) != []
    ensures var s := Snapshot(domains, services);
            Lookup(s, "h", "/a", map[]) == Some((x, [])) || Lookup(s, "h", "/b", map[]) == Some((y, []))
  {
    x := Entry(Route("h", "/a", "app", "x", "", 0), Component("app", "x", "api", "g", "c1", "", 0));
    y := Entry(Route("h", "/b", "app", "y", "", 0), Component("app", "y", "api", "g", "c2", "", 0));
    var i := Instance("api", "c1", "10.0.0.1", 80, 1.0, true, map[]);
    var j := Instance("api", "c2", "10.0.0.2", 80, 1.0, true, map[]);
    domains := map["h" := [x, y]];
    query := (group, service, cluster) => Some(if cluster == "c1" then [i] else [j]);
    services := SomeLoad(domains, query);
    OneForwardable(i, "c1");
    OneForwardable(j, "c2");
    assert x in domains["h"] && y in domains["h"];
    assert "c1"[1] != "c2"[1];
    OtherClusterStarves(domains, services, query, x, y, i, j);
  }

  lemma NoneForwardable(inst: Instance, cluster: string)
    requires cluster != "" && inst.clusterName != "" && inst.clusterName != cluster
    ensures Forwardable([inst], cluster, 0) == []
  {
    KeepOne(inst, Eligible(cluster));
  }

  lemma SortedIsBuilt(entered: map<string, seq<Entry>>, sorted: map<string, seq<Entry>>, services: map<string, seq<Instance>>,
                      routes: seq<Route>, comps: Components)
    requires Entered(entered, routes, comps) && sorted.Keys == entered.Keys
    requires forall d :: d in entered ==> sorted[d] == Sorted(entered[d], EntryBefore)
    ensures Built(Snapshot(sorted, services), routes, comps)
  {
  }

  ghost predicate Entered(domains: map<string, seq<Entry>>, routes: seq<Route>, comps: Components) {
    && (forall d :: d in domains <==> EntriesOf(routes, comps, d) != [])
    && (forall d :: d in domains ==> domains[d] == EntriesOf(routes, comps, d))
  }

  lemma EnterNext(routes: seq<Route>, n: nat, comps: Components, d: string)
    requires n < |routes|
    ensures EntriesOf(routes[..n + 1], comps, d) ==
              EntriesOf(routes[..n], comps, d)
              + if Listed(d, Present(comps))(routes[n]) then [Entry(routes[n], comps[routes[n].app][routes[n].component])] else []
  {
    assert routes[..n + 1][..n] == routes[..n];
  }

  method Enter(routes: seq<Route>, comps: Components) returns (domains: map<string, seq<Entry>>)
    ensures Entered(domains, routes, comps)
  {
    domains := map[];
    for n := 0 to |routes|
      invariant Entered(domains, routes[..n], comps)
    {
      var r := routes[n];
      forall d
        ensures EntriesOf(routes[..n + 1], comps, d) ==
                  EntriesOf(routes[..n], comps, d)
                  + if Listed(d, Present(comps))(r) then [Entry(r, comps[r.app][r.component])] else []
      {
        EnterNext(routes, n, comps, d);
      }
      var d := NormalizeDomain(r.domain);
      if r.app !in comps {
        continue;
      }
      if r.component !in comps[r.app] {
        continue;
      }
      var was := if d in domains then domains[d] else [];
      domains := domains[d := was + [Entry(r, comps[r.app][r.component])]];
    }
    assert routes[..|routes|] == routes;
  }

  method SortAll(domains: map<string, seq<Entry>>) returns (sorted: map<string, seq<Entry>>)
    ensures sorted.Keys == domains.Keys
    ensures forall d :: d in domains ==> sorted[d] == Sorted(domains[d], EntryBefore)
  {
    sorted := domains;
    var left := domains.Keys;
    while left != {}
      invariant left <= domains.Keys == sorted.Keys
      invariant forall d :: d in domains ==> sorted[d] == if d in left then domains[d] else Sorted(domains[d], EntryBefore)
      decreases left
    {
      var d :| d in left;
      var entries := domains[d];
      var a := new Entry[|entries|](i requires 0 <= i < |entries| => entries[i]);
      assert a[..] == entries;
      Sort(a, EntryBefore);
      sorted := sorted[d := a[..]];
      left := left - {d};
    }
  }

  method LoadServices(domains: map<string, seq<Entry>>, query: Query)
    returns (ok: bool, services: map<string, seq<Instance>>)
    ensures ok ==> Loaded(domains, services, query)
    ensures (forall c: Component :: Listing(query, c).Some?) ==> ok
  {
    services := map[];
    var left := domains.Keys;
    while left != {}
      invariant left <= domains.Keys
      invariant Covers(domains, domains.Keys - left, services) && AllQueried(domains, services, query)
      decreases left
    {
      var d :| d in left;
      ok, services := LoadEntries(domains, d, services, query);
      if !ok {
        return;
      }
      left := left - {d};
    }
    assert domains.Keys - left == domains.Keys;
    ok := true;
  }

  method LoadEntries(domains: map<string, seq<Entry>>, d: string, loaded: map<string, seq<Instance>>, query: Query)
    returns (ok: bool, services: map<string, seq<Instance>>)
    requires d in domains && AllQueried(domains, loaded, query)
    ensures ok ==> AllQueried(domains, services, query) && loaded.Keys <= services.Keys
    ensures ok ==> forall e :: e in domains[d] ==> KeyOf(e.comp) in services
    ensures (forall c: Component :: Listing(query, c).Some?) ==> ok
  {
    services := loaded;
    for i := 0 to |domains[d]|
      invariant AllQueried(domains, services, query) && loaded.Keys <= services.Keys
      invariant forall j :: 0 <= j < i ==> KeyOf(domains[d][j].comp) in services
    {
      var e := domains[d][i];
      var key := KeyOf(e.comp);
      if key in services {
        continue;
      }
      var instances := Listing(query, e.comp);
      if instances.None? {
        return false, services;
      }
      assert e in domains[d];
      assert Queried(domains, key, instances.value, query);
      services := services[key := instances.value];
    }
    ok := true;
  }

  lemma LessLevels()
    ensures Levels(Less)
  {
    forall a, b | Less(a, b)
      ensures !Less(b, a)
    {
      LessAsymmetric(a, b);
    }
    forall a, b, c | Less(a, b) && !Less(c, b)
      ensures Less(a, c)
    {
      LevelStep(a, b, c);
    }
  }

  method SortStrings(keys: set<string>) returns (out: seq<string>)
    ensures (forall k :: k in out <==> k in keys) && Ascending(out, Less)
  {
    var all: seq<string> := [];
    var left := keys;
    while left != {}
      invariant left <= keys && (forall k :: k in all <==> k in keys && k !in left) && Distinct(all)
      decreases left
    {
      var k :| k in left;
      all := all + [k];
      left := left - {k};
    }
    var a := new string[|all|](i requires 0 <= i < |all| => all[i]);
    assert a[..] == all;
    Sort(a, Less);
    out := a[..];
    LessLevels();
    SortedIsOrdered(all, Less);
    SameMembers(all, Less);
    SortedDistinct(all, Less);
    forall i, j | 0 <= i < j < |out|
      ensures Less(out[i], out[j])
    {
      LessTotal(out[i], out[j]);
    }
  }

  // ----- choosing instances

  method SelectInstances(instances: seq<Instance>, cluster: string) returns (out: seq<Instance>)
    ensures out == Selected(instances, cluster)
  {
    out := [];
    for n := 0 to |instances|
      invariant out == Keep(instances[..n], Eligible(cluster))
    {
      var inst := instances[n];
      assert instances[..n + 1][..n] == instances[..n];
      if cluster != "" && inst.clusterName != "" && inst.clusterName != cluster {
        continue;
      }
      if !inst.enabled {
        continue;
      }
      out := out + [inst];
    }
    assert instances[..|instances|] == instances;
    var a := new Instance[|out|](i requires 0 <= i < |out| => out[i]);
    assert a[..] == out;
    Sort(a, InstanceBefore);
    out := a[..];
  }

  method DropBackupsWhenPrimaryExists(instances: seq<Instance>) returns (out: seq<Instance>)
    ensures out == WithoutBackups(instances)
  {
    if |instances| == 0 {
      return instances;
    }
    var hasPrimary := false;
    for i := 0 to |instances|
      invariant !hasPrimary && forall j :: 0 <= j < i ==> Backup(instances[j])
    {
      if Role(instances[i]) != "backup" {
        hasPrimary := true;
        assert instances[i] in instances && !Backup(instances[i]);
        break;
      }
    }
    if !hasPrimary {
      return instances;
    }
    out := [];
    for n := 0 to |instances|
      invariant out == Keep(instances[..n], Primary())
    {
      assert instances[..n + 1][..n] == instances[..n];
      if Role(instances[n]) == "backup" {
        continue;
      }
      out := out + [instances[n]];
    }
    assert instances[..|instances|] == instances;
  }

  /** The conflict is judged over every eligible instance, stand-bys included. */
  method SelectForwardable(instances: seq<Instance>, cluster: string, declared: Port)
    returns (pool: seq<Instance>, conflict: Option<PortPool.PortConflict>)
    ensures pool == Forwardable(instances, cluster, declared)
    ensures var all := Selected(instances, cluster);
            conflict.None? <==> all == [] || PortPool.Agree(all, declared)
  {
    var narrowed := SelectInstances(instances, cluster);
    var unusedPool, unusedConflict;
    unusedPool, conflict := PortPool.SelectPortPool(narrowed, declared);
    var forwardable := DropBackupsWhenPrimaryExists(narrowed);
    pool, unusedConflict := PortPool.SelectPortPool(forwardable, declared);
  }

  method FilterInstancesByMeta(instances: seq<Instance>, filters: map<string, string>) returns (out: seq<Instance>)
    ensures out == Keep(instances, MetaMatches(filters))
  {
    out := [];
    for n := 0 to |instances|
      invariant out == Keep(instances[..n], MetaMatches(filters))
    {
      var inst := instances[n];
      assert instances[..n + 1][..n] == instances[..n];
      var ok := true;
      var left := filters.Keys;
      while left != {}
        invariant left <= filters.Keys
        invariant forall k :: k in filters && k !in left ==> MetaValue(inst, k) == filters[k]
        decreases left
      {
        var k :| k in left;
        if MetaValue(inst, k) != filters[k] {
          ok := false;
          break;
        }
        left := left - {k};
      }
      if ok {
        out := out + [inst];
      }
    }
    assert instances[..|instances|] == instances;
  }

  // ----- the transport pool

  /** A pooled transport is keyed by address and whether it carries websockets. */
  function PoolKey(i: Instance, websocket: bool): string {
    Addr(i) + "|" + (if websocket then "1" else "0")
  }

  /** The key up to its first bar. */
  function UpstreamOf(key: string): string {
    if key == "" || key[0] == '|' then "" else [key[0]] + UpstreamOf(key[1..])
  }

  lemma {:induction false} UpstreamBeforeBar(a: string, rest: string)
    requires forall i :: 0 <= i < |a| ==> a[i] != '|'
    ensures UpstreamOf(a + "|" + rest) == a
  {
    if a == "" {
      assert a + "|" + rest == "|" + rest;
    } else {
      var key := a + "|" + rest;
      assert key[0] == a[0] && key[1..] == a[1..] + "|" + rest;
      assert [a[0]] + a[1..] == a;
      UpstreamBeforeBar(a[1..], rest);
    }
  }

  lemma {:induction false} UpstreamStops(key: string, i: nat)
    requires i < |key| && key[i] == '|'
    ensures |UpstreamOf(key)| <= i
  {
    if key[0] != '|' {
      UpstreamStops(key[1..], i - 1);
    }
  }

  /** The pruning pass reads back the address a pool was made for, exactly when the ip has no bar. */
  lemma UpstreamOfPoolKey(i: Instance, websocket: bool)
    ensures UpstreamOf(PoolKey(i, websocket)) == Addr(i) <==> '|' !in i.ip
  {
    ParseDecimal(i.port);
    assert forall k :: 0 <= k < |Decimal(i.port)| ==> Decimal(i.port)[k] in Decimal(i.port);
    if '|' in i.ip {
      var k :| 0 <= k < |i.ip| && i.ip[k] == '|';
      UpstreamStops(PoolKey(i, websocket), k);
    } else {
      UpstreamBeforeBar(Addr(i), if websocket then "1" else "0");
    }
  }

  class TransportPool {
    /** Transports by key; a transport is a number here. */
    var entries: map<string, nat>

    constructor ()
      ensures entries == map[]
    {
      entries := map[];
    }

    method Prune(live: set<string>)
      modifies this
      ensures entries == map k | k in old(entries) && UpstreamOf(k) in live :: old(entries)[k]
    {
      var left := entries.Keys;
      ghost var was := entries;
      while left != {}
        invariant left <= was.Keys
        invariant entries == map k | k in was && (k in left || UpstreamOf(k) in live) :: was[k]
        decreases left
      {
        var key :| key in left;
        if UpstreamOf(key) !in live {
          entries := entries - {key};
        }
        left := left - {key};
      }
    }
  }

  method LiveAddresses(t: Table) returns (live: set<string>)
    requires t.Valid()
    ensures forall a :: a in live <==> Live(t.Snap(), a)
  {
    live := {};
    ghost var s := t.Snap();
    for n := 0 to |t.names|
      invariant forall a :: a in live <==> LiveAmong(s, t.names[..n], a)
    {
      var targets := t.AllTargets(t.names[n]);
      var more := AddressesOf(targets);
      UnderOneName(s, t.names[n], targets);
      OneMoreName(s, t.names[..n], t.names[n]);
      assert t.names[..n + 1] == t.names[..n] + [t.names[n]];
      live := live + more;
    }
    assert t.names[..|t.names|] == t.names;
  }

  ghost predicate LiveAmong(s: Snapshot, names: seq<string>, a: string) {
    exists name :: name in names && LiveUnder(s, name, a)
  }

  lemma OneMoreName(s: Snapshot, names: seq<string>, name: string)
    ensures forall a :: LiveAmong(s, names + [name], a) <==> LiveAmong(s, names, a) || LiveUnder(s, name, a)
  {
    assert name in names + [name];
    forall a | LiveAmong(s, names, a)
      ensures LiveAmong(s, names + [name], a)
    {
      var known :| known in names && LiveUnder(s, known, a);
      assert known in names + [name];
    }
  }

  ghost predicate Offered(targets: seq<(Entry, seq<Instance>)>, a: string) {
    exists i :: 0 <= i < |targets| && Offers(targets[i].1, a)
  }

  lemma UnderOneName(s: Snapshot, name: string, targets: seq<(Entry, seq<Instance>)>)
    requires |targets| == |EntriesUnder(s, name)|
    requires forall i :: 0 <= i < |targets| ==> targets[i] == (EntriesUnder(s, name)[i], OfferedBy(s, EntriesUnder(s, name)[i]))
    ensures forall a :: LiveUnder(s, name, a) <==> Offered(targets, a)
  {
    forall a | LiveUnder(s, name, a)
      ensures Offered(targets, a)
    {
      var i :| 0 <= i < |targets| && Offers(OfferedBy(s, EntriesUnder(s, name)[i]), a);
      assert Offers(targets[i].1, a);
    }
    forall a | Offered(targets, a)
      ensures LiveUnder(s, name, a)
    {
      var i :| 0 <= i < |targets| && Offers(targets[i].1, a);
      assert Offers(OfferedBy(s, EntriesUnder(s, name)[i]), a);
    }
  }

  method AddressesOf(targets: seq<(Entry, seq<Instance>)>) returns (live: set<string>)
    ensures forall a :: a in live <==> Offered(targets, a)
  {
    live := {};
    for i := 0 to |targets|
      invariant forall a :: a in live ==> Offered(targets, a)
      invariant forall j, inst :: 0 <= j < i && inst in targets[j].1 ==> Addr(inst) in live
    {
      var more := set inst | inst in targets[i].1 :: Addr(inst);
      assert forall a :: a in more ==> Offers(targets[i].1, a);
      live := live + more;
    }
  }

  // ----- the gateway's refresh

  /** Drops the pools and counters nothing in the table resolves to. */
  method DropUnresolvable(t: Table, pool: TransportPool, picker: Picker)
    requires t.Valid() && picker.Valid()
    modifies pool, picker
    ensures picker.Valid()
    ensures Pruned(t.Snap(), old(pool.entries), pool.entries)
    ensures Forgotten(t.Snap(), old(picker.Snapshot()), picker.Snapshot())
  {
    var live := LiveAddresses(t);
    assert picker.Snapshot() == old(picker.Snapshot());
    pool.Prune(live);
    var keys := t.TargetKeys();
    assert picker.Snapshot() == old(picker.Snapshot());
    picker.Forget(set k | k in keys);
  }

  ghost predicate Pruned(s: Snapshot, before: map<string, nat>, after: map<string, nat>) {
    && (forall k :: k in after <==> k in before && Live(s, UpstreamOf(k)))
    && (forall k :: k in after ==> after[k] == before[k])
  }

  ghost predicate Forgotten(s: Snapshot, before: View, after: View) {
    && (forall k :: k in after <==> k in before && KeyListed(s, k))
    && (forall k :: k in after ==> after[k] == before[k])
  }

  /** One tick: rebuild the table, then drop what it no longer resolves to; a failed read drops nothing. */
  method RefreshGateway(t: Table, pool: TransportPool, picker: Picker, routes: Option<seq<Route>>, comps: Option<Components>,
                        query: Query)
    returns (ok: bool)
    requires t.Valid() && picker.Valid()
    modifies t, pool, picker
    ensures t.Valid() && picker.Valid()
    ensures !ok ==> t.Snap() == old(t.Snap()) && pool.entries == old(pool.entries) && picker.Snapshot() == old(picker.Snapshot())
    ensures ok ==> routes.Some? && comps.Some? && Built(t.Snap(), routes.value, comps.value) && Loaded(t.domains, t.services, query)
    ensures ok ==> Pruned(t.Snap(), old(pool.entries), pool.entries)
    ensures ok ==> Forgotten(t.Snap(), old(picker.Snapshot()), picker.Snapshot())
  {
    ok := t.Refresh(routes, comps, query);
    assert picker.Snapshot() == old(picker.Snapshot());
    if ok {
      DropUnresolvable(t, pool, picker);
    }
  }

  /** An instance whose ip holds a bar, which registration accepts, loses its pools at every refresh
      even while its address is the one live address; any other keeps them. */
  lemma BarredPoolsAreDropped(s: Snapshot, inst: Instance, websocket: bool, pools: map<string, nat>, pools': map<string, nat>)
    requires Pruned(s, pools, pools') && PoolKey(inst, websocket) in pools
    requires forall a :: Live(s, a) <==> a == Addr(inst)
    ensures PoolKey(inst, websocket) in pools' <==> '|' !in inst.ip
  {
    UpstreamOfPoolKey(inst, websocket);
  }

  /** A refresh never takes from a request what the new table can still give it: the counters of its
      target stay as they were, and so do the pools of the instances it may be sent to, when the
      table's key for its host is a fixed point of normalisation. */
  lemma RefreshKeepsWhatIsServed(s: Snapshot, host: string, path: string, filters: map<string, string>, inst: Instance, websocket: bool,
                                 pools: map<string, nat>, pools': map<string, nat>, counters: View, counters': View)
    requires Pruned(s, pools, pools') && Forgotten(s, counters, counters')
    requires Lookup(s, host, path, filters).Some? && inst in Lookup(s, host, path, filters).value.1
    requires '|' !in inst.ip && Normal(NormalizeDomain(host))
    ensures PoolKey(inst, websocket) in pools ==> PoolKey(inst, websocket) in pools'
    ensures var key := EntryKey(Lookup(s, host, path, filters).value.0);
            key in counters ==> key in counters' && counters'[key] == counters[key]
  {
    LookupKeyListed(s, host, path, filters);
    LookupAddressesLive(s, host, path, filters, inst);
    UpstreamOfPoolKey(inst, websocket);
  }
}
