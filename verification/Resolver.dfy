/** The resolver endpoint's answer, read from the rows on every call, and what the data plane may dial
    of it. */
module Resolver {
  import opened Registry
  import opened StableSort
  import opened Domains
  import opened Routes
  import opened RouteAgreement
  import opened RouteTable
  import opened GatewayTable
  import PortPool
  import Text

  /** A failed read, no route or no component for it, or a route with its instances. */
  datatype Answer = Unread | NoRoute | Found(route: Route, instances: seq<Instance>)

  predicate HeavierFirst(a: Instance, b: Instance) {
    if a.weight != b.weight then a.weight > b.weight else Less(a.ip, b.ip)
  }

  /** The resolver reads a missing group as the default one; the table's refresh does not. */
  function GroupOf(c: Component): string {
    if c.group == "" then "DEFAULT_GROUP" else c.group
  }

  function Narrowed(listing: seq<Instance>, declared: Port, filters: map<string, string>): seq<Instance> {
    Sorted(PortPool.Pool(if |filters| > 0 then Keep(listing, MetaMatches(filters)) else listing, declared), HeavierFirst)
  }

  function ResolveRoute(routes: seq<Route>, comps: Components, query: Query, host: string, path: string,
                        filters: map<string, string>): Answer {
    match Scan(routes, Lower(host), path)
    case None => NoRoute
    case Some(r) =>
      if !Present(comps)(r) then NoRoute
      else
        var c := comps[r.app][r.component];
        match query(GroupOf(c), c.service, c.cluster)
        case None => Unread
        case Some(listing) => Found(r, Narrowed(listing, c.declared, filters))
  }

  /** No other instance of the component's listing could be dialled before this stand-by. */
  ghost predicate LastResort(listing: seq<Instance>, cluster: string, i: Instance) {
    Backup(i) ==> forall j :: j in listing && Eligible(cluster)(j) ==> Backup(j)
  }

  lemma NarrowedIff(listing: seq<Instance>, c: Component, filters: map<string, string>, i: Instance)
    ensures i in Narrowed(listing, c.declared, filters) <==>
              i in listing && (c.declared == 0 || i.port == c.declared) && MetaMatches(filters)(i)
  {
    SameMembers(PortPool.Pool(if |filters| > 0 then Keep(listing, MetaMatches(filters)) else listing, c.declared), HeavierFirst);
    if |filters| == 0 {
      assert filters == map[];
    }
  }

  /** While the cache holds the component's own listing, the data plane dials nothing the resolver does
      not return, and leaves out exactly what is disabled or of another cluster and the stand-bys that
      are not needed. */
  lemma DialledIsResolved(s: Snapshot, routes: seq<Route>, comps: Components, query: Query, host: string, path: string,
                          filters: map<string, string>)
    requires Built(s, routes, comps) && DistinctTrimmed(routes) && NormalRows(routes) && Normal(host) && Text.HasPrefix(path, "/")
    requires forall i :: 0 <= i < |routes| ==> Present(comps)(routes[i])
    requires Lookup(s, host, path, filters).Some?
    requires var c := Lookup(s, host, path, filters).value.0.comp;
             c.group != "" && Listing(query, c) == Some(ServiceOf(s, c))
    ensures var (e, dialled) := Lookup(s, host, path, filters).value;
            var answer := ResolveRoute(routes, comps, query, host, path, filters);
            && answer.Found? && answer.route == e.route
            && forall i :: i in dialled <==>
                 i in answer.instances && Eligible(e.comp.cluster)(i) && LastResort(ServiceOf(s, e.comp), e.comp.cluster, i)
  {
    StagesFixed(host);
    LookupRoute(s, routes, comps, host, path, filters);
    LookupIsResolver(s, routes, comps, host, path, filters);
    var (e, dialled) := Lookup(s, host, path, filters).value;
    forall i
      ensures i in dialled <==>
                && i in Narrowed(ServiceOf(s, e.comp), e.comp.declared, filters)
                && Eligible(e.comp.cluster)(i) && LastResort(ServiceOf(s, e.comp), e.comp.cluster, i)
    {
      DialledIff(s, e, dialled, host, path, filters, i);
      NarrowedIff(ServiceOf(s, e.comp), e.comp, filters, i);
    }
  }

  lemma DialledIff(s: Snapshot, e: Entry, dialled: seq<Instance>, host: string, path: string, filters: map<string, string>, i: Instance)
    requires Lookup(s, host, path, filters) == Some((e, dialled))
    ensures i in dialled <==>
              && i in ServiceOf(s, e.comp) && Eligible(e.comp.cluster)(i) && (e.comp.declared == 0 || i.port == e.comp.declared)
              && LastResort(ServiceOf(s, e.comp), e.comp.cluster, i) && MetaMatches(filters)(i)
  {
    ForwardableIff(ServiceOf(s, e.comp), e.comp.cluster, e.comp.declared, i);
    if |filters| == 0 {
      assert filters == map[];
    }
  }
}
