/** The routing snapshot the data plane reads: built from the stored rows, looked up per request, and
    asked for the keys and addresses that must outlive a refresh. */
module RouteTable {
  import opened Registry
  import opened StableSort
  import opened Domains
  import opened Routes
  import opened RouteAgreement
  import PortPool
  import Proxy
  import Text

  /** A component row; `declared` is its servicePort metadata, zero when absent or malformed. */
  datatype Component = Component(
    app: string, name: string, service: string, group: string, cluster: string, algorithm: string, declared: Port)

  datatype Entry = Entry(route: Route, comp: Component)

  type Components = map<string, map<string, Component>>

  datatype Snapshot = Snapshot(domains: map<string, seq<Entry>>, services: map<string, seq<Instance>>)

  function ServiceKey(group: string, service: string): string {
    (if group == "" then "DEFAULT_GROUP" else group) + "@@" + service
  }

  function KeyOf(c: Component): string {
    ServiceKey(c.group, c.service)
  }

  // ----- choosing among a service's instances

  /** Reading a missing key gives the empty string. */
  function MetaValue(i: Instance, key: string): string {
    if key in i.metadata then i.metadata[key] else ""
  }

  function Role(i: Instance): string {
    MetaValue(i, "role")
  }

  predicate Backup(i: Instance) {
    Role(i) == "backup"
  }

  function Eligible(cluster: string): Instance -> bool {
    (i: Instance) => i.enabled && (cluster == "" || i.clusterName == "" || i.clusterName == cluster)
  }

  predicate InstanceBefore(a: Instance, b: Instance) {
    if a.weight != b.weight then a.weight > b.weight
    else if a.ip != b.ip then Less(a.ip, b.ip)
    else a.port < b.port
  }

  function Selected(instances: seq<Instance>, cluster: string): seq<Instance> {
    Sorted(Keep(instances, Eligible(cluster)), InstanceBefore)
  }

  function Primary(): Instance -> bool {
    (i: Instance) => !Backup(i)
  }

  function WithoutBackups(instances: seq<Instance>): seq<Instance> {
    if exists i :: i in instances && !Backup(i) then Keep(instances, Primary()) else instances
  }

  function Forwardable(instances: seq<Instance>, cluster: string, declared: Port): seq<Instance> {
    PortPool.Pool(WithoutBackups(Selected(instances, cluster)), declared)
  }

  function MetaMatches(filters: map<string, string>): Instance -> bool {
    (i: Instance) => forall k :: k in filters ==> MetaValue(i, k) == filters[k]
  }

  /** What can be dialled: an eligible instance, on the declared port if there is one, and a stand-by
      only when no eligible instance is anything else. */
  lemma ForwardableIff(instances: seq<Instance>, cluster: string, declared: Port, i: Instance)
    ensures i in Forwardable(instances, cluster, declared) <==>
              && i in instances && Eligible(cluster)(i) && (declared == 0 || i.port == declared)
              && (Backup(i) ==> forall j :: j in instances && Eligible(cluster)(j) ==> Backup(j))
  {
    SameMembers(Keep(instances, Eligible(cluster)), InstanceBefore);
  }

  /** With no port declared something is dialled whenever anything is eligible; with one declared,
      exactly when an instance on that port survives the exclusion of stand-bys. */
  lemma ForwardableEmptyIff(instances: seq<Instance>, cluster: string, declared: Port)
    ensures Forwardable(instances, cluster, declared) == [] <==>
              forall i :: i in instances && Eligible(cluster)(i) && (declared == 0 || i.port == declared) ==>
                declared != 0 && Backup(i) && exists j :: j in instances && Eligible(cluster)(j) && !Backup(j)
  {
    var r := Forwardable(instances, cluster, declared);
    if r != [] {
      ForwardableIff(instances, cluster, declared, r[0]);
      assert r[0] in r;
    }
    forall i | i in instances
      ensures i in r <==> Eligible(cluster)(i) && (declared == 0 || i.port == declared)
                          && (Backup(i) ==> forall j :: j in instances && Eligible(cluster)(j) ==> Backup(j))
    {
      ForwardableIff(instances, cluster, declared, i);
    }
  }

  lemma InstanceLevels()
    ensures Levels(InstanceBefore)
  {
    forall a, b | InstanceBefore(a, b)
      ensures !InstanceBefore(b, a)
    {
      LessAsymmetric(a.ip, b.ip);
    }
    forall a, b, c | InstanceBefore(a, b) && !InstanceBefore(c, b)
      ensures InstanceBefore(a, c)
    {
      LevelStep(a.ip, b.ip, c.ip);
      LessTotal(b.ip, c.ip);
    }
  }

  lemma {:induction false} KeepOrdered<T(!new)>(s: seq<T>, f: T -> bool, less: (T, T) -> bool)
    requires Ordered(s, less)
    ensures Ordered(Keep(s, f), less)
  {
    if s != [] {
      var n := |s| - 1;
      KeepOrdered(s[..n], f, less);
      forall x | x in Keep(s[..n], f)
        ensures !less(s[n], x)
      {
        assert x in s[..n];
      }
    }
  }

  /** Candidates come heaviest first, then by address, whatever was left out. */
  lemma ForwardableOrdered(instances: seq<Instance>, cluster: string, declared: Port)
    ensures Ordered(Forwardable(instances, cluster, declared), InstanceBefore)
  {
    InstanceLevels();
    SortedIsOrdered(Keep(instances, Eligible(cluster)), InstanceBefore);
    KeepOrdered(Selected(instances, cluster), Primary(), InstanceBefore);
    KeepOrdered(WithoutBackups(Selected(instances, cluster)), PortPool.OnPort(declared), InstanceBefore);
  }

  // ----- the snapshot

  predicate EntryBefore(a: Entry, b: Entry) {
    RouteBefore(a.route, b.route)
  }

  function EntryMatching(path: string): Entry -> bool {
    (e: Entry) => PathPrefixMatches(e.route.prefix, path)
  }

  function Present(comps: Components): Route -> bool {
    (r: Route) => r.app in comps && r.component in comps[r.app]
  }

  /** The entries of one domain in row order; rows without a component are dropped. */
  function EntriesOf(routes: seq<Route>, comps: Components, domain: string): seq<Entry> {
    if routes == [] then []
    else
      var r := routes[|routes| - 1];
      EntriesOf(routes[..|routes| - 1], comps, domain)
      + (if Listed(domain, Present(comps))(r) then [Entry(r, comps[r.app][r.component])] else [])
  }

  /** What a lookup answers. */
  function Lookup(s: Snapshot, host: string, path: string, filters: map<string, string>): Option<(Entry, seq<Instance>)> {
    var d := NormalizeDomain(host);
    if d !in s.domains then None
    else
      match First(s.domains[d], EntryMatching(Rooted(path)))
      case None => None
      case Some(e) =>
        var instances := ServiceOf(s, e.comp);
        var pool := Forwardable(instances, e.comp.cluster, e.comp.declared);
        Some((e, if |filters| > 0 then Keep(pool, MetaMatches(filters)) else pool))
  }

  function ServiceOf(s: Snapshot, c: Component): seq<Instance> {
    if KeyOf(c) in s.services then s.services[KeyOf(c)] else []
  }

  function TargetOf(e: Entry, instances: seq<Instance>, portConflict: bool): Proxy.Target {
    Proxy.Target(e.comp.app, e.comp.name, e.comp.service, e.comp.algorithm, instances, portConflict)
  }

  /** The selection-state key of an entry's target. */
  function EntryKey(e: Entry): string {
    Proxy.TargetKey(TargetOf(e, [], false))
  }

  ghost predicate KeyListed(s: Snapshot, key: string) {
    exists d, i :: d in s.domains && 0 <= i < |s.domains[d]| && EntryKey(s.domains[d][i]) == key
  }

  ghost predicate Offers(instances: seq<Instance>, a: string) {
    exists inst :: inst in instances && Addr(inst) == a
  }

  function EntriesUnder(s: Snapshot, name: string): seq<Entry> {
    var d := NormalizeDomain(name);
    if d in s.domains then s.domains[d] else []
  }

  function OfferedBy(s: Snapshot, e: Entry): seq<Instance> {
    Selected(ServiceOf(s, e.comp), e.comp.cluster)
  }

  /** An address offered when the table is asked for all targets of a name. */
  ghost predicate LiveUnder(s: Snapshot, name: string, a: string) {
    exists i :: 0 <= i < |EntriesUnder(s, name)| && Offers(OfferedBy(s, EntriesUnder(s, name)[i]), a)
  }

  /** An address the pruning pass finds: it asks the table again under each of its own keys. */
  ghost predicate Live(s: Snapshot, a: string) {
    exists d :: d in s.domains && LiveUnder(s, d, a)
  }

  /** The entries under every key were put there by names that normalise to it. */
  ghost predicate Built(s: Snapshot, routes: seq<Route>, comps: Components) {
    && (forall d :: d in s.domains <==> EntriesOf(routes, comps, d) != [])
    && (forall d :: d in s.domains ==> s.domains[d] == Sorted(EntriesOf(routes, comps, d), EntryBefore))
  }

  /** The entry made of a route the table picked. */
  function EntryFor(comps: Components, picked: Option<Route>): Option<Entry>
    requires picked.Some? ==> Present(comps)(picked.value)
  {
    if picked.None? then None else Some(Entry(picked.value, comps[picked.value.app][picked.value.component]))
  }

  lemma {:induction false} BestEntry(routes: seq<Route>, comps: Components, domain: string, path: string)
    ensures Best(EntriesOf(routes, comps, domain), EntryMatching(path), EntryBefore)
            == EntryFor(comps, Best(routes, Both(Listed(domain, Present(comps)), Matching(path)), RouteBefore))
  {
    if routes != [] {
      var n := |routes| - 1;
      BestEntry(routes[..n], comps, domain, path);
      var before := EntriesOf(routes[..n], comps, domain);
      if Listed(domain, Present(comps))(routes[n]) {
        BestNext(before, Entry(routes[n], comps[routes[n].app][routes[n].component]), path);
      } else {
        assert before + [] == before;
      }
    }
  }

  lemma BestNext(before: seq<Entry>, e: Entry, path: string)
    ensures var best := Best(before, EntryMatching(path), EntryBefore);
            Best(before + [e], EntryMatching(path), EntryBefore) ==
              if PathPrefixMatches(e.route.prefix, path) && (best.None? || RouteBefore(e.route, best.value.route)) then Some(e) else best
  {
    assert (before + [e])[..|before|] == before;
  }

  lemma EntryLevels()
    ensures Levels(EntryBefore)
  {
    RouteLevels();
    assert forall a, b :: EntryBefore(a, b) ==> RouteBefore(a.route, b.route);
  }

  /** The entry a lookup uses is the one the table's order picks among the rows with a component. */
  lemma LookupRoute(s: Snapshot, routes: seq<Route>, comps: Components, host: string, path: string, filters: map<string, string>)
    requires Built(s, routes, comps)
    ensures var picked := Tabled(routes, NormalizeDomain(host), path, Present(comps));
            match Lookup(s, host, path, filters)
            case None => picked.None?
            case Some(found) => picked == Some(found.0.route) && Present(comps)(found.0.route)
                                && found.0.comp == comps[found.0.route.app][found.0.route.component]
  {
    var d := NormalizeDomain(host);
    EntryLevels();
    FirstIsBest(EntriesOf(routes, comps, d), EntryMatching(Rooted(path)), EntryBefore);
    BestEntry(routes, comps, d, Rooted(path));
    TableIsBest(routes, Listed(d, Present(comps)), path);
  }

  /** The snapshot answers every rooted path as the resolver would from the rows themselves. */
  lemma LookupIsResolver(s: Snapshot, routes: seq<Route>, comps: Components, host: string, path: string, filters: map<string, string>)
    requires Built(s, routes, comps) && DistinctTrimmed(routes) && NormalRows(routes) && Normal(host) && Text.HasPrefix(path, "/")
    requires forall i :: 0 <= i < |routes| ==> Present(comps)(routes[i])
    ensures var resolved := Resolved(routes, host, path, Present(comps));
            match Lookup(s, host, path, filters)
            case None => resolved.None?
            case Some(found) => resolved == Some(found.0.route)
  {
    LookupRoute(s, routes, comps, host, path, filters);
    TableIsResolver(routes, host, Present(comps));
  }

  // ----- what a refresh must keep

  /** Whatever a lookup can return has its selection state under a listed key. */
  lemma LookupKeyListed(s: Snapshot, host: string, path: string, filters: map<string, string>)
    requires Lookup(s, host, path, filters).Some?
    ensures KeyListed(s, EntryKey(Lookup(s, host, path, filters).value.0))
  {
    var entries := s.domains[NormalizeDomain(host)];
    var e := First(entries, EntryMatching(Rooted(path))).value;
    var i :| 0 <= i < |entries| && entries[i] == e;
  }

  /** ... and every address it can dial is one the pruning pass finds, if the key it was found under
      is a fixed point of normalisation. */
  lemma LookupAddressesLive(s: Snapshot, host: string, path: string, filters: map<string, string>, inst: Instance)
    requires Lookup(s, host, path, filters).Some? && inst in Lookup(s, host, path, filters).value.1
    requires Normal(NormalizeDomain(host))
    ensures Live(s, Addr(inst))
  {
    var d := NormalizeDomain(host);
    var e := First(s.domains[d], EntryMatching(Rooted(path))).value;
    var i :| 0 <= i < |s.domains[d]| && s.domains[d][i] == e;
    var instances := ServiceOf(s, e.comp);
    ForwardableIff(instances, e.comp.cluster, e.comp.declared, inst);
    SameMembers(Keep(instances, Eligible(e.comp.cluster)), InstanceBefore);
    assert Offers(OfferedBy(s, EntriesUnder(s, d)[i]), Addr(inst));
    assert LiveUnder(s, d, Addr(inst));
  }

  /** For a gateway with one domain the condition is exact: what a request can dial survives the
      pruning pass if and only if the domain's key is a fixed point. */
  lemma SoleDomainLive(s: Snapshot, host: string, path: string, filters: map<string, string>, inst: Instance)
    requires Lookup(s, host, path, filters).Some? && inst in Lookup(s, host, path, filters).value.1
    requires s.domains.Keys == {NormalizeDomain(host)}
    ensures Live(s, Addr(inst)) <==> Normal(NormalizeDomain(host))
  {
    if Normal(NormalizeDomain(host)) {
      LookupAddressesLive(s, host, path, filters, inst);
    }
  }

  // ... and with any number of domains

  /** Some request is served from this entry. */
  ghost predicate Served(domains: map<string, seq<Entry>>, e: Entry) {
    exists host: string, path: string :: ServedAt(domains, host, path, e)
  }

  ghost predicate ServedAt(domains: map<string, seq<Entry>>, host: string, path: string, e: Entry) {
    NormalizeDomain(host) in domains && First(domains[NormalizeDomain(host)], EntryMatching(Rooted(path))) == Some(e)
  }

  /** Prefix q stands at the place of t or above it, so it matches whatever t matches. */
  predicate Over(q: string, t: string) {
    q == "" || q == t || Text.HasPrefix(t, q + "/")
  }

  /** No earlier entry of the list stands over entry i. */
  ghost predicate Foremost(entries: seq<Entry>, i: nat)
    requires i < |entries|
  {
    forall j :: 0 <= j < i ==> !Over(Trim(entries[j].route.prefix), Trim(entries[i].route.prefix))
  }

  /** First among those at its place. */
  ghost predicate FirstOfPlace(entries: seq<Entry>, i: nat)
    requires i < |entries|
  {
    forall j :: 0 <= j < i ==> Trim(entries[j].route.prefix) != Trim(entries[i].route.prefix)
  }

  /** In a list in the table's order only an entry at the very same place can be in the way. */
  lemma ForemostInOrder(entries: seq<Entry>, i: nat)
    requires Ordered(entries, EntryBefore) && i < |entries|
    ensures Foremost(entries, i) <==> FirstOfPlace(entries, i)
  {
    forall j | 0 <= j < i && Trim(entries[j].route.prefix) != Trim(entries[i].route.prefix)
      ensures !Over(Trim(entries[j].route.prefix), Trim(entries[i].route.prefix))
    {
      assert !EntryBefore(entries[i], entries[j]);
    }
  }

  /** What an earlier entry stands over it takes away. */
  lemma OverTakes(q: string, p: string, path: string)
    requires Over(Trim(q), Trim(p)) && PathPrefixMatches(p, path)
    ensures PathPrefixMatches(q, path)
  {
    MatchIsOfTrimmed(q, path);
    MatchIsOfTrimmed(p, path);
  }

  lemma OwnPathMatches(p: string, n: nat)
    ensures PathPrefixMatches(p, OwnPathOf(p, n)) && OwnPathOf(p, n) != ""
  {
    MatchIsOfTrimmed(p, OwnPathOf(p, n));
  }

  /** Anything else leaves prefix p a path of its own. */
  lemma OwnPathIsLeft(q: string, p: string, n: nat)
    requires !Over(Trim(q), Trim(p)) && |Trim(q)| < n
    ensures !PathPrefixMatches(q, OwnPathOf(p, n))
  {
    MatchIsOfTrimmed(q, OwnPathOf(p, n));
  }

  function OwnPathOf(p: string, n: nat): (path: string)
    ensures Trim(p) != "" ==> path == Trim(p)
    ensures Trim(p) == "" ==> |path| == n + 1 && forall i :: 0 <= i <= n ==> path[i] == 'z'
  {
    if Trim(p) == "" then seq(n + 1, i => 'z') else Trim(p)
  }

  /** A length no prefix of the list reaches. */
  function Beyond(entries: seq<Entry>): (n: nat)
    ensures forall e :: e in entries ==> |Trim(e.route.prefix)| < n
  {
    if entries == [] then 0
    else
      var n := Beyond(entries[1..]);
      if |Trim(entries[0].route.prefix)| < n then n else |Trim(entries[0].route.prefix)| + 1
  }

  /** Whether a request is served from an entry can be read off the lists: its key is one some host is
      looked up under, and nothing before it in its list stands over it. */
  lemma ServedIff(domains: map<string, seq<Entry>>, e: Entry)
    ensures Served(domains, e) <==>
              exists d, i :: d in domains && Reachable(d) && 0 <= i < |domains[d]| && domains[d][i] == e && Foremost(domains[d], i)
  {
    if host, path :| ServedAt(domains, host, path, e) {
      var d := NormalizeDomain(host);
      ReachableIff(d);
      var i := FirstAt(domains[d], EntryMatching(Rooted(path)));
      forall j | 0 <= j < i
        ensures !Over(Trim(domains[d][j].route.prefix), Trim(e.route.prefix))
      {
        if Over(Trim(domains[d][j].route.prefix), Trim(e.route.prefix)) {
          OverTakes(domains[d][j].route.prefix, e.route.prefix, Rooted(path));
        }
      }
    }
    forall d, i | d in domains && Reachable(d) && 0 <= i < |domains[d]| && domains[d][i] == e && Foremost(domains[d], i)
      ensures Served(domains, e)
    {
      ReachableIff(d);
      var host :| NormalizeDomain(host) == d;
      ForemostIsFirst(domains[d], i);
      assert ServedAt(domains, host, OwnPathOf(e.route.prefix, Beyond(domains[d])), e);
    }
  }

  lemma {:induction false} FirstAt(entries: seq<Entry>, p: Entry -> bool) returns (i: nat)
    requires First(entries, p).Some?
    ensures i < |entries| && First(entries, p) == Some(entries[i]) && p(entries[i])
    ensures forall j :: 0 <= j < i ==> !p(entries[j])
  {
    if p(entries[0]) {
      i := 0;
    } else {
      i := FirstAt(entries[1..], p);
      i := i + 1;
    }
  }

  lemma ForemostIsFirst(entries: seq<Entry>, i: nat)
    requires i < |entries| && Foremost(entries, i)
    ensures var path := OwnPathOf(entries[i].route.prefix, Beyond(entries));
            Rooted(path) == path && First(entries, EntryMatching(path)) == Some(entries[i])
  {
    var path := OwnPathOf(entries[i].route.prefix, Beyond(entries));
    OwnPathMatches(entries[i].route.prefix, Beyond(entries));
    assert entries[i] in entries && EntryMatching(path)(entries[i]);
    var k := FirstAt(entries, EntryMatching(path));
    if k < i {
      OwnPathIsLeft(entries[k].route.prefix, entries[i].route.prefix, Beyond(entries));
    }
  }

  /** Asking the table under its own names meets an entry of the same service that does not narrow to
      another cluster. */
  ghost predicate Counterpart(domains: map<string, seq<Entry>>, e: Entry) {
    exists d, f :: d in domains && Stands(domains, d, f, e)
  }

  ghost predicate Stands(domains: map<string, seq<Entry>>, d: string, f: Entry, e: Entry) {
    && NormalizeDomain(d) in domains && f in domains[NormalizeDomain(d)]
    && KeyOf(f.comp) == KeyOf(e.comp) && (f.comp.cluster == "" || f.comp.cluster == e.comp.cluster)
  }

  ghost predicate Dialled(s: Snapshot, host: string, path: string, filters: map<string, string>, inst: Instance) {
    var found := Lookup(s, host, path, filters);
    found.Some? && inst in found.value.1
  }

  /** Whatever instances the services have, everything that can be dialled survives a refresh. */
  ghost predicate AlwaysLive(domains: map<string, seq<Entry>>) {
    forall services, host, path, filters, inst ::
      Dialled(Snapshot(domains, services), host, path, filters, inst) ==> Live(Snapshot(domains, services), Addr(inst))
  }

  lemma OfferedIff(s: Snapshot, e: Entry, inst: Instance)
    ensures inst in OfferedBy(s, e) <==> inst in ServiceOf(s, e.comp) && Eligible(e.comp.cluster)(inst)
  {
    SameMembers(Keep(ServiceOf(s, e.comp), Eligible(e.comp.cluster)), InstanceBefore);
  }

  lemma CounterpartOffers(s: Snapshot, e: Entry, inst: Instance)
    requires Counterpart(s.domains, e) && inst in ServiceOf(s, e.comp) && Eligible(e.comp.cluster)(inst)
    ensures Live(s, Addr(inst))
  {
    var d, f :| d in s.domains && Stands(s.domains, d, f, e);
    var entries := EntriesUnder(s, d);
    var i :| 0 <= i < |entries| && entries[i] == f;
    OfferedIff(s, f, inst);
    assert Offers(OfferedBy(s, entries[i]), Addr(inst));
    assert LiveUnder(s, d, Addr(inst));
  }

  /** A cluster name no entry uses. */
  ghost function FreshName(names: set<string>): (unused: string)
    ensures unused !in names && unused != ""
  {
    var n := Longest(names);
    seq(n + 1, i => 'x')
  }

  ghost function Longest(names: set<string>): (n: nat)
    ensures forall s :: s in names ==> |s| <= n
  {
    if names == {} then 0
    else
      var s :| s in names;
      var n := Longest(names - {s});
      if |s| > n then |s| else n
  }

  ghost function Clusters(domains: map<string, seq<Entry>>): set<string> {
    set d, e | d in domains && e in domains[d] :: e.comp.cluster
  }

  /** An instance only this entry's service has, in its cluster or in one nobody names. */
  ghost function Witness(domains: map<string, seq<Entry>>, e: Entry): Instance {
    Instance(e.comp.service, if e.comp.cluster == "" then FreshName(Clusters(domains)) else e.comp.cluster,
             "10.0.0.1", e.comp.declared, 1.0, true, map[])
  }

  lemma WitnessIsDialled(domains: map<string, seq<Entry>>, host: string, path: string, e: Entry)
    requires ServedAt(domains, host, path, e)
    ensures Dialled(Snapshot(domains, map[KeyOf(e.comp) := [Witness(domains, e)]]), host, path, map[], Witness(domains, e))
  {
    ForwardableIff([Witness(domains, e)], e.comp.cluster, e.comp.declared, Witness(domains, e));
  }

  lemma WitnessIsPruned(domains: map<string, seq<Entry>>, e: Entry)
    requires !Counterpart(domains, e)
    ensures var inst := Witness(domains, e);
            !Live(Snapshot(domains, map[KeyOf(e.comp) := [inst]]), Addr(inst))
  {
    var inst := Witness(domains, e);
    var s := Snapshot(domains, map[KeyOf(e.comp) := [inst]]);
    forall d | d in domains
      ensures !LiveUnder(s, d, Addr(inst))
    {
      var entries := EntriesUnder(s, d);
      forall i | 0 <= i < |entries|
        ensures !Offers(OfferedBy(s, entries[i]), Addr(inst))
      {
        var f := entries[i];
        assert !Stands(domains, d, f, e);
        assert f in domains[NormalizeDomain(d)] && f.comp.cluster in Clusters(domains);
        forall other | other in OfferedBy(s, f)
          ensures false
        {
          OfferedIff(s, f, other);
        }
      }
    }
  }

  lemma LiveIffServedStand(domains: map<string, seq<Entry>>)
    ensures AlwaysLive(domains) <==> forall e :: Served(domains, e) ==> Counterpart(domains, e)
  {
    if AlwaysLive(domains) {
      forall e | Served(domains, e)
        ensures Counterpart(domains, e)
      {
        var host, path :| ServedAt(domains, host, path, e);
        WitnessIsDialled(domains, host, path, e);
        if !Counterpart(domains, e) {
          WitnessIsPruned(domains, e);
        }
      }
    } else {
      var services, host, path, filters, inst :| Dialled(Snapshot(domains, services), host, path, filters, inst)
        && !Live(Snapshot(domains, services), Addr(inst));
      var s := Snapshot(domains, services);
      var e := Lookup(s, host, path, filters).value.0;
      assert ServedAt(domains, host, path, e);
      ForwardableIff(ServiceOf(s, e.comp), e.comp.cluster, e.comp.declared, inst);
      if Counterpart(domains, e) {
        CounterpartOffers(s, e, inst);
      }
    }
  }

  /** Everything a request can be sent to survives the refresh, for every state of the services, if
      and only if every entry under a reachable key with nothing before it standing over it has a
      counterpart under a name the pruning pass asks for. */
  lemma AlwaysLiveIff(domains: map<string, seq<Entry>>)
    ensures AlwaysLive(domains) <==>
              forall d, i :: d in domains && Reachable(d) && 0 <= i < |domains[d]| && Foremost(domains[d], i) ==>
                Counterpart(domains, domains[d][i])
  {
    LiveIffServedStand(domains);
    forall e
      ensures Served(domains, e) <==>
                exists d, i :: d in domains && Reachable(d) && 0 <= i < |domains[d]| && domains[d][i] == e && Foremost(domains[d], i)
    {
      ServedIff(domains, e);
    }
    forall d, i | d in domains && Reachable(d) && 0 <= i < |domains[d]| && Foremost(domains[d], i)
      ensures Served(domains, domains[d][i])
    {
      ServedIff(domains, domains[d][i]);
    }
  }

  lemma {:induction false} KeysAreReachable(routes: seq<Route>, comps: Components, d: string)
    requires EntriesOf(routes, comps, d) != []
    ensures Reachable(d)
  {
    var n := |routes| - 1;
    if Listed(d, Present(comps))(routes[n]) {
      NormalizedIsReachable(routes[n].domain);
    } else {
      KeysAreReachable(routes[..n], comps, d);
    }
  }

  /** On a snapshot built from rows, that is: every entry that is the first of its list at its place. */
  lemma BuiltAlwaysLiveIff(s: Snapshot, routes: seq<Route>, comps: Components)
    requires Built(s, routes, comps)
    ensures AlwaysLive(s.domains) <==>
              forall d, i :: d in s.domains && 0 <= i < |s.domains[d]| && FirstOfPlace(s.domains[d], i) ==>
                Counterpart(s.domains, s.domains[d][i])
  {
    AlwaysLiveIff(s.domains);
    EntryLevels();
    forall d | d in s.domains
      ensures Reachable(d) && Ordered(s.domains[d], EntryBefore)
    {
      KeysAreReachable(routes, comps, d);
      SortedIsOrdered(EntriesOf(routes, comps, d), EntryBefore);
    }
    forall d, i | d in s.domains && 0 <= i < |s.domains[d]|
      ensures Foremost(s.domains[d], i) <==> FirstOfPlace(s.domains[d], i)
    {
      ForemostInOrder(s.domains[d], i);
    }
  }

  lemma SortOne<T>(x: T, less: (T, T) -> bool)
    ensures Sorted([x], less) == [x]
  {
    assert [x][..0] == [];
  }

  lemma KeepOne<T(!new)>(x: T, f: T -> bool)
    ensures Keep([x], f) == if f(x) then [x] else []
  {
    assert [x][..0] == [];
  }

  /** One row makes a snapshot of one entry under its normal form. */
  lemma OneRowBuilt(r: Route, c: Component, services: map<string, seq<Instance>>)
    requires r.app == c.app && r.component == c.name
    ensures Built(Snapshot(map[NormalizeDomain(r.domain) := [Entry(r, c)]], services), [r], map[c.app := map[c.name := c]])
  {
    var comps := map[c.app := map[c.name := c]];
    forall d
      ensures EntriesOf([r], comps, d) == if d == NormalizeDomain(r.domain) then [Entry(r, c)] else []
    {
      assert [r][..0] == [];
    }
    SortOne(Entry(r, c), EntryBefore);
  }

  lemma OneForwardable(inst: Instance, cluster: string)
    requires inst.enabled && inst.clusterName == cluster
    ensures Forwardable([inst], cluster, 0) == [inst]
  {
    KeepOne(inst, Eligible(cluster));
    SortOne(inst, InstanceBefore);
    KeepOne(inst, Primary());
  }

  lemma OneLookup(s: Snapshot, host: string, e: Entry, inst: Instance)
    requires NormalizeDomain(host) in s.domains && s.domains[NormalizeDomain(host)] == [e] && e.route.prefix == "/"
    requires KeyOf(e.comp) in s.services && s.services[KeyOf(e.comp)] == [inst]
    requires inst.enabled && inst.clusterName == e.comp.cluster && e.comp.declared == 0
    ensures Lookup(s, host, "/", map[]) == Some((e, [inst]))
  {
    OneForwardable(inst, e.comp.cluster);
    assert EntryMatching("/")([e][0]);
  }

  /** A row for "a.." is served, and its live instance is not found by the pruning pass. */
  lemma DottedDomainIsPruned(inst: Instance, c: Component, r: Route)
    requires inst.enabled && inst.clusterName == c.cluster && c.declared == 0
    requires r.domain == "a.." && r.prefix == "/" && r.app == c.app && r.component == c.name
    ensures var s := Snapshot(map["a." := [Entry(r, c)]], map[KeyOf(c) := [inst]]);
            && Built(s, [r], map[c.app := map[c.name := c]])
            && Lookup(s, "a..", "/", map[]) == Some((Entry(r, c), [inst]))
            && !Live(s, Addr(inst))
  {
    var s := Snapshot(map["a." := [Entry(r, c)]], map[KeyOf(c) := [inst]]);
    NotIdempotent();
    OneRowBuilt(r, c, s.services);
    OneLookup(s, "a..", Entry(r, c), inst);
    SoleDomainLive(s, "a..", "/", map[], inst);
  }
}
