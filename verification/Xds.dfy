/** The xDS vocabulary: resource types, discovery requests and responses, snapshots and their
    consistency check (pkg/cache/resource.go, pkg/cache/snapshot.go, pkg/cache/cache.go).

    Of the payloads, those fields are modelled that differ between two resources of one name. */
module Xds {

  datatype Option<+T> = None | Some(value: T)

  /** The five resource types a stream has a slot for. */
  datatype Kind = Endpoints | Clusters | Routes | Listeners | Secrets

  /** A type URL: one of the five supported ones, the empty one, or anything else. */
  datatype TypeUrl = Of(kind: Kind) | AnyType | OtherType(url: string)

  type Annotations = map<string, string>

  datatype LbEndpoint = LbEndpoint(address: string, port: nat, weight: nat)

  datatype VirtualHost = VirtualHost(name: string, domains: seq<string>, cluster: string)

  datatype Abort = Abort(code: nat, percent: nat)

  /** Durations are in nanoseconds. */
  datatype Delay = Delay(duration: int, percent: nat)

  datatype HttpFilter =
    | Router
    | Fault(abort: Option<Abort>, delay: Option<Delay>)
    | HealthCheck(cacheTime: int, path: string)
    | ExtAuthz

  /** A network filter; rds is the route configuration its connection manager asks for, if any. */
  datatype NetworkFilter = NetworkFilter(name: string, rds: Option<string>, httpFilters: seq<HttpFilter>)

  /** What a cluster says about health checks and circuit breakers. */
  datatype ClusterSettings = ClusterSettings(timeout: int, interval: int, altPort: Option<nat>, path: string,
                                             maxConnections: nat, maxPendingRequests: nat, maxRequests: nat,
                                             maxRetries: nat)

  datatype Resource =
    | LoadAssignment(clusterName: string, lbEndpoints: seq<LbEndpoint>)
    | EnvoyCluster(name: string, eds: bool, serviceName: string, settings: ClusterSettings)
    | RouteConfiguration(name: string, virtualHosts: seq<VirtualHost>)
    | EnvoyListener(name: string, filterChains: seq<seq<NetworkFilter>>)
    | Secret(name: string)
    | NilResource

  const HTTP_CONNECTION_MANAGER := "envoy.http_connection_manager"

  function ResourceName(res: Resource): string {
    match res
    case LoadAssignment(n, _) => n
    case EnvoyCluster(n, _, _, _) => n
    case RouteConfiguration(n, _) => n
    case EnvoyListener(n, _) => n
    case Secret(n) => n
    case NilResource => ""
  }

  datatype Request = Request(node: Option<string>, typeUrl: TypeUrl, version: string,
                             names: seq<string>, nonce: string)

  datatype Response = Response(request: Request, version: string, resources: seq<Resource>)

  datatype ResourceGroup = ResourceGroup(version: string, items: map<string, Resource>)

  datatype Snapshot = Snapshot(endpoints: ResourceGroup, clusters: ResourceGroup, routes: ResourceGroup,
                               listeners: ResourceGroup, secrets: ResourceGroup)

  const NO_GROUP := ResourceGroup("", map[])

  function Group(s: Snapshot, t: TypeUrl): ResourceGroup {
    match t
    case Of(Endpoints) => s.endpoints
    case Of(Clusters) => s.clusters
    case Of(Routes) => s.routes
    case Of(Listeners) => s.listeners
    case Of(Secrets) => s.secrets
    case _ => NO_GROUP
  }

  function GetVersion(s: Snapshot, t: TypeUrl): string { Group(s, t).version }

  function GetResources(s: Snapshot, t: TypeUrl): map<string, Resource> { Group(s, t).items }

  /******* Listing a map in some order *******/

  /** The order a loop over a Go map happens to take: every key once, in any sequence. */
  ghost predicate Ordering<K(!new)>(order: seq<K>, keys: set<K>) {
    && (forall i, j :: 0 <= i < j < |order| ==> order[i] != order[j])
    && (forall x :: x in order <==> x in keys)
  }

  /** s lists the values of m along order. */
  ghost predicate ListedBy<T>(order: seq<string>, m: map<string, T>, s: seq<T>) {
    && Ordering(order, m.Keys)
    && |s| == |order|
    && forall i :: 0 <= i < |order| ==> s[i] == m[order[i]]
  }

  ghost predicate Lists<T(!new)>(m: map<string, T>, s: seq<T>) {
    exists order :: ListedBy(order, m, s)
  }

  /** Every finite set of keys can be put in some order. */
  lemma {:induction false} OrderingExists<K(!new)>(keys: set<K>) returns (order: seq<K>)
    ensures Ordering(order, keys)
    decreases keys
  {
    if keys == {} {
      order := [];
    } else {
      var k :| k in keys;
      var rest := OrderingExists(keys - {k});
      order := rest + [k];
    }
  }

  lemma ListingExists<T(!new)>(m: map<string, T>) returns (s: seq<T>)
    ensures Lists(m, s)
  {
    var order := OrderingExists(m.Keys);
    s := seq(|order|, i requires 0 <= i < |order| => assert order[i] in order; m[order[i]]);
    assert ListedBy(order, m, s);
  }

  /******* Indexing by name *******/

  /** Later items win over earlier items of the same name. */
  function Index(items: seq<Resource>): map<string, Resource> {
    if items == [] then map[]
    else Index(items[..|items| - 1])[ResourceName(items[|items| - 1]) := items[|items| - 1]]
  }

  /** No later item has the name of item i. */
  predicate LastOfItsName(items: seq<Resource>, i: nat)
    requires i < |items|
  {
    forall j :: i < j < |items| ==> ResourceName(items[j]) != ResourceName(items[i])
  }

  method IndexResourcesByName(items: seq<Resource>) returns (indexed: map<string, Resource>)
    ensures indexed == Index(items)
    ensures forall n :: n in indexed ==> ResourceName(indexed[n]) == n && indexed[n] in items
    ensures forall i :: 0 <= i < |items| ==> ResourceName(items[i]) in indexed
    ensures forall i :: 0 <= i < |items| && LastOfItsName(items, i) ==> indexed[ResourceName(items[i])] == items[i]
  {
    indexed := map[];
    for i := 0 to |items|
      invariant indexed == Index(items[..i])
      invariant forall n :: n in indexed ==> ResourceName(indexed[n]) == n && indexed[n] in items
      invariant forall j :: 0 <= j < i ==> ResourceName(items[j]) in indexed
    {
      assert items[..i + 1][..i] == items[..i];
      indexed := indexed[ResourceName(items[i]) := items[i]];
    }
    assert items[..|items|] == items;
    forall i | 0 <= i < |items| && LastOfItsName(items, i)
      ensures ResourceName(items[i]) in Index(items) && Index(items)[ResourceName(items[i])] == items[i]
    {
      LastItemStays(items, i);
    }
  }

  /** Of items of one name the last one stays. */
  lemma {:induction false} LastItemStays(items: seq<Resource>, i: nat)
    requires i < |items| && LastOfItsName(items, i)
    ensures ResourceName(items[i]) in Index(items) && Index(items)[ResourceName(items[i])] == items[i]
  {
    var last := |items| - 1;
    if i < last {
      assert ResourceName(items[last]) != ResourceName(items[i]);
      LastItemStays(items[..last], i);
    }
  }

  /** Every resource is filed under its own name. */
  ghost predicate WellKeyed(m: map<string, Resource>) {
    forall n :: n in m ==> ResourceName(m[n]) == n
  }

  lemma {:induction false} IndexListed(order: seq<string>, m: map<string, Resource>, s: seq<Resource>)
    requires WellKeyed(m) && ListedBy(order, m, s)
    ensures Index(s) == m
    decreases |s|
  {
    if s == [] {
      assert m.Keys == {};
    } else {
      var last := |s| - 1;
      var n := order[last];
      assert n in order;
      OrderingInit(order, m.Keys);
      ListedInit(order, m, s);
      IndexListed(order[..last], m - {n}, s[..last]);
      assert (m - {n})[n := m[n]] == m;
    }
  }

  lemma ListedInit(order: seq<string>, m: map<string, Resource>, s: seq<Resource>)
    requires ListedBy(order, m, s) && s != [] && Ordering(order[..|s| - 1], m.Keys - {order[|s| - 1]})
    ensures ListedBy(order[..|s| - 1], m - {order[|s| - 1]}, s[..|s| - 1])
  {
    var last := |s| - 1;
    forall i | 0 <= i < last ensures s[..last][i] == m[order[i]] && order[i] != order[last] { }
    assert (m - {order[last]}).Keys == m.Keys - {order[last]};
  }

  lemma OrderingInit(order: seq<string>, keys: set<string>)
    requires Ordering(order, keys) && order != []
    ensures Ordering(order[..|order| - 1], keys - {order[|order| - 1]})
  {
    var last := |order| - 1;
    forall x ensures x in order[..last] <==> x in keys - {order[last]} {
      assert x in order <==> x in order[..last] || x == order[last];
    }
  }

  /** Listing a well-keyed map in any order and indexing the list again gives the map back. */
  lemma IndexListRoundTrip(m: map<string, Resource>, s: seq<Resource>)
    requires WellKeyed(m) && Lists(m, s)
    ensures Index(s) == m
  {
    var order :| ListedBy(order, m, s);
    IndexListed(order, m, s);
  }

  /** NewSnapshot: one version for four groups; the secrets group stays the zero value. */
  method NewSnapshot(version: string, endpoints: seq<Resource>, clusters: seq<Resource>,
                     routes: seq<Resource>, listeners: seq<Resource>) returns (s: Snapshot)
    ensures s == SnapshotOf(version, Index(endpoints), Index(clusters), Index(routes), Index(listeners))
    ensures s.endpoints == ResourceGroup(version, Index(endpoints))
    ensures s.clusters == ResourceGroup(version, Index(clusters))
    ensures s.routes == ResourceGroup(version, Index(routes))
    ensures s.listeners == ResourceGroup(version, Index(listeners))
    ensures s.secrets == ResourceGroup("", map[])
  {
    var e := IndexResourcesByName(endpoints);
    var c := IndexResourcesByName(clusters);
    var r := IndexResourcesByName(routes);
    var l := IndexResourcesByName(listeners);
    s := Snapshot(ResourceGroup(version, e), ResourceGroup(version, c), ResourceGroup(version, r),
                  ResourceGroup(version, l), NO_GROUP);
  }

  function SnapshotOf(version: string, e: map<string, Resource>, c: map<string, Resource>,
                      r: map<string, Resource>, l: map<string, Resource>): Snapshot
  {
    Snapshot(ResourceGroup(version, e), ResourceGroup(version, c), ResourceGroup(version, r),
             ResourceGroup(version, l), NO_GROUP)
  }

  /******* References and consistency *******/

  /** The route configuration a network filter asks for. */
  function FilterRefs(f: NetworkFilter): set<string> {
    if f.name == HTTP_CONNECTION_MANAGER && f.rds.Some? then {f.rds.value} else {}
  }

  ghost function RefsOf(res: Resource): set<string> {
    match res
    case EnvoyCluster(n, eds, service, _) => if !eds then {} else if service != "" then {service} else {n}
    case EnvoyListener(_, chains) =>
      set i, j, r | 0 <= i < |chains| && 0 <= j < |chains[i]| && r in FilterRefs(chains[i][j]) :: r
    case _ => {}
  }

  /** Everything some resource of the group refers to by name. */
  ghost function References(items: map<string, Resource>): set<string> {
    set n, r | n in items && r in RefsOf(items[n]) :: r
  }

  method ListenerRefs(res: Resource) returns (out: set<string>)
    requires res.EnvoyListener?
    ensures out == RefsOf(res)
  {
    var chains := res.filterChains;
    out := {};
    for i := 0 to |chains|
      invariant out == set a, b, r | 0 <= a < i && 0 <= b < |chains[a]| && r in FilterRefs(chains[a][b]) :: r
    {
      ghost var before := out;
      for j := 0 to |chains[i]|
        invariant out == before + set b, r | 0 <= b < j && r in FilterRefs(chains[i][b]) :: r
      {
        out := out + FilterRefs(chains[i][j]);
      }
    }
  }

  /** A cluster of type EDS refers to its service name, or to itself if it has none; a listener to the route of every
      connection manager in every chain; nothing else refers to anything. */
  lemma ReferencesExactly(items: map<string, Resource>, r: string)
    ensures r in References(items) <==>
              || (exists x :: x in items && items[x].EnvoyCluster? && items[x].eds &&
                   r == if items[x].serviceName == "" then items[x].name else items[x].serviceName)
              || (exists x, i, j :: x in items && items[x].EnvoyListener? && 0 <= i < |items[x].filterChains| &&
                   0 <= j < |items[x].filterChains[i]| &&
                   items[x].filterChains[i][j].name == "envoy.http_connection_manager" &&
                   items[x].filterChains[i][j].rds == Some(r))
  {
    if x :| x in items && items[x].EnvoyCluster? && items[x].eds &&
            r == if items[x].serviceName == "" then items[x].name else items[x].serviceName {
      assert r in RefsOf(items[x]);
    }
    if x, i, j :| x in items && items[x].EnvoyListener? && 0 <= i < |items[x].filterChains| &&
                  0 <= j < |items[x].filterChains[i]| &&
                  items[x].filterChains[i][j].name == "envoy.http_connection_manager" &&
                  items[x].filterChains[i][j].rds == Some(r) {
      assert r in FilterRefs(items[x].filterChains[i][j]);
      assert r in RefsOf(items[x]);
    }
  }

  method GetResourceReferences(items: map<string, Resource>) returns (out: set<string>)
    ensures out == References(items)
  {
    out := {};
    var todo := items.Keys;
    while todo != {}
      invariant todo <= items.Keys
      invariant out == set n, r | n in items.Keys - todo && r in RefsOf(items[n]) :: r
      decreases todo
    {
      var n :| n in todo;
      var res := items[n];
      var found: set<string> := {};
      if res.EnvoyCluster? {
        if res.eds {
          found := {if res.serviceName != "" then res.serviceName else res.name};
        }
      } else if res.EnvoyListener? {
        found := ListenerRefs(res);
      }
      assert found == RefsOf(res);
      ghost var next := set m, r | m in items.Keys - (todo - {n}) && r in RefsOf(items[m]) :: r;
      forall r ensures r in next <==> r in out + found {
        if r in next {
          var m :| m in items.Keys - (todo - {n}) && r in RefsOf(items[m]);
          assert m == n || m in items.Keys - todo;
        }
        if r in found { assert n in items.Keys - (todo - {n}); }
        if r in out {
          var m :| m in items.Keys - todo && r in RefsOf(items[m]);
          assert m in items.Keys - (todo - {n});
        }
      }
      todo := todo - {n};
      out := out + found;
    }
  }

  /** superset: None when every resource is listed in names, otherwise one that is not. */
  method Superset(names: set<string>, items: map<string, Resource>) returns (missing: Option<string>)
    ensures missing.None? <==> items.Keys <= names
    ensures missing.Some? ==> missing.value in items && missing.value !in names
  {
    var todo := items.Keys;
    while todo != {}
      invariant todo <= items.Keys
      invariant items.Keys - todo <= names
      decreases todo
    {
      var n :| n in todo;
      if n !in names { return Some(n); }
      todo := todo - {n};
    }
    return None;
  }

  datatype Inconsistency = NilSnapshot | EndpointCount | UnlistedEndpoint(name: string)
                         | RouteCount | UnlistedRoute(name: string)

  /** What the consistency check is for: the references are exactly the resources. */
  ghost predicate IsConsistent(s: Snapshot) {
    && References(s.clusters.items) == s.endpoints.items.Keys
    && References(s.listeners.items) == s.routes.items.Keys
  }

  /** Equal sizes and one inclusion already force equality. */
  lemma SameSizeInclusion<T>(small: set<T>, big: set<T>)
    requires small <= big && |small| == |big|
    ensures small == big
  {
    assert |big - small| == |big| - |small|;
    assert big == small + (big - small);
  }

  /** The code compares sizes and checks one inclusion; that decides exact agreement. */
  method Consistent(snapshot: Option<Snapshot>) returns (err: Option<Inconsistency>)
    ensures err.None? <==> snapshot.Some? && IsConsistent(snapshot.value)
    ensures err == Some(NilSnapshot) <==> snapshot.None?
    ensures err.Some? && err.value.UnlistedEndpoint? ==>
              err.value.name in snapshot.value.endpoints.items &&
              err.value.name !in References(snapshot.value.clusters.items)
    ensures err.Some? && err.value.UnlistedRoute? ==>
              err.value.name in snapshot.value.routes.items &&
              err.value.name !in References(snapshot.value.listeners.items)
    ensures err == Some(EndpointCount) <==>
              snapshot.Some? && |References(snapshot.value.clusters.items)| != |snapshot.value.endpoints.items.Keys|
    ensures err.Some? && (err.value.RouteCount? || err.value.UnlistedRoute?) ==>
              References(snapshot.value.clusters.items) == snapshot.value.endpoints.items.Keys
    ensures err == Some(RouteCount) ==>
              |References(snapshot.value.listeners.items)| != |snapshot.value.routes.items.Keys|
  {
    if snapshot.None? { return Some(NilSnapshot); }
    var s := snapshot.value;
    var endpoints := GetResourceReferences(s.clusters.items);
    if |endpoints| != |s.endpoints.items| { 
      assert |s.endpoints.items| == |s.endpoints.items.Keys|;
      return Some(EndpointCount);
    }
    var missing := Superset(endpoints, s.endpoints.items);
    if missing.Some? { return Some(UnlistedEndpoint(missing.value)); }
    SameSizeInclusion(s.endpoints.items.Keys, endpoints);
    var routes := GetResourceReferences(s.listeners.items);
    if |routes| != |s.routes.items| {
      assert |s.routes.items| == |s.routes.items.Keys|;
      return Some(RouteCount);
    }
    missing := Superset(routes, s.routes.items);
    if missing.Some? { return Some(UnlistedRoute(missing.value)); }
    SameSizeInclusion(s.routes.items.Keys, routes);
    return None;
  }
}
