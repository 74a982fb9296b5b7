/** The mesh compiler as functions on values (pkg/provider/updater.go, node.go, util.go, listener.go): from the
    provider's services per node to the clusters, load assignments, routes and listeners of every sidecar.

    Where the program loops over the provider's map, the order of the visit is a parameter. */
module Mesh {
  import opened Xds
  import opened Config

  datatype Endpoint = Endpoint(address: string, annotations: Annotations, port: nat)

  /** A service of the provider (a Cluster in the program). */
  datatype Service = Service(name: string, endpoints: seq<Endpoint>)

  type Provider = map<string, seq<Service>>

  const INGRESS_PORT := 4100
  const EGRESS_ROUTE := "egress_route"
  const INGRESS_ROUTE := "ingress_route"

  function LocalName(name: string): string { "local" + "_" + name }

  function PortDomain(host: string): string { host + ":4100" }

  function VHost(host: string, cluster: string): VirtualHost {
    VirtualHost("vhost_" + host, [host, PortDomain(host)], cluster)
  }

  /******* util.go *******/

  function EgressEndpoint(e: Endpoint): Endpoint { e.(port := INGRESS_PORT) }

  function EgressEndpoints(eps: seq<Endpoint>): seq<Endpoint> {
    seq(|eps|, i requires 0 <= i < |eps| => EgressEndpoint(eps[i]))
  }

  function EgressServices(svcs: seq<Service>): seq<Service> {
    seq(|svcs|, i requires 0 <= i < |svcs| => Service(svcs[i].name, EgressEndpoints(svcs[i].endpoints)))
  }

  /** Annotations of a service: those of its endpoints, the later endpoint winning. */
  function Merged(eps: seq<Endpoint>): Annotations {
    if eps == [] then map[] else Merged(eps[..|eps| - 1]) + eps[|eps| - 1].annotations
  }

  /******* The node under construction *******/

  datatype NodeState = NodeState(name: string, clusters: map<string, Resource>, endpoints: map<string, Resource>,
                                 routes: map<string, Resource>, vhostExists: map<string, set<string>>,
                                 listeners: seq<Resource>)

  function NewNode(name: string): NodeState { NodeState(name, map[], map[], map[], map[], []) }

  function ToLbEndpoint(e: Endpoint): LbEndpoint { LbEndpoint(e.address, e.port, Weight(e.annotations)) }

  function ToLb(eps: seq<Endpoint>): seq<LbEndpoint> {
    seq(|eps|, i requires 0 <= i < |eps| => ToLbEndpoint(eps[i]))
  }

  /** The load-balanced endpoints of a load assignment, none if there is no such assignment. */
  function Lbs(endpoints: map<string, Resource>, cluster: string): seq<LbEndpoint> {
    if cluster in endpoints && endpoints[cluster].LoadAssignment? then endpoints[cluster].lbEndpoints else []
  }

  function VHosts(routes: map<string, Resource>, route: string): seq<VirtualHost> {
    if route in routes && routes[route].RouteConfiguration? then routes[route].virtualHosts else []
  }

  function AddEndpoints(n: NodeState, cluster: string, eps: seq<Endpoint>): NodeState {
    var name := if cluster in n.endpoints then ResourceName(n.endpoints[cluster]) else cluster;
    n.(endpoints := n.endpoints[cluster := LoadAssignment(name, Lbs(n.endpoints, cluster) + ToLb(eps))])
  }

  function ConfigOf(s: Service): ClusterConfig { ParseClusterAnnotations(Merged(s.endpoints)) }

  function ClusterFor(s: Service): Resource { EnvoyCluster(s.name, true, "", SettingsOf(ConfigOf(s))) }

  /** The first service of a name fixes the configuration of its cluster; every one adds its endpoints. */
  function AddService(n: NodeState, s: Service): NodeState { PutCluster(n, s.name, ClusterFor(s), s.endpoints) }

  function PutCluster(n: NodeState, name: string, c: Resource, eps: seq<Endpoint>): NodeState {
    var clusters := if name in n.clusters then n.clusters else n.clusters[name := c];
    AddEndpoints(n.(clusters := clusters), name, eps)
  }

  function AddServices(n: NodeState, svcs: seq<Service>): NodeState {
    if svcs == [] then n else AddService(AddServices(n, svcs[..|svcs| - 1]), svcs[|svcs| - 1])
  }

  function Seen(n: NodeState, route: string): set<string> {
    if route in n.vhostExists then n.vhostExists[route] else {}
  }

  function AddVHost(n: NodeState, route: string, v: VirtualHost): NodeState {
    var seen := Seen(n, route);
    if v.name in seen then n.(vhostExists := n.vhostExists[route := seen])
    else
      var name := if route in n.routes then ResourceName(n.routes[route]) else route;
      n.(vhostExists := n.vhostExists[route := seen + {v.name}],
         routes := n.routes[route := RouteConfiguration(name, VHosts(n.routes, route) + [v])])
  }

  function AddVHosts(n: NodeState, route: string, vs: seq<VirtualHost>): NodeState {
    if vs == [] then n else AddVHost(AddVHosts(n, route, vs[..|vs| - 1]), route, vs[|vs| - 1])
  }

  /** The route configuration is made even when there is nothing to put into it. */
  function AddRoute(n: NodeState, route: string, vs: seq<VirtualHost>): NodeState {
    var start := if route in n.routes then n else n.(routes := n.routes[route := RouteConfiguration(route, [])]);
    AddVHosts(start, route, vs)
  }

  /******* Listeners *******/

  function ListenerResource(name: string, route: string, filters: seq<HttpFilter>): Resource {
    EnvoyListener(name, [[NetworkFilter(HTTP_CONNECTION_MANAGER, Some(route), filters)]])
  }

  /** The fault filter of a service, if it is enabled. */
  function Faults(c: FaultConfig): seq<HttpFilter> { if c.enabled then [FaultFilter(c)] else [] }

  /** Every injection is put in front of what is there. */
  function Inject(filters: seq<HttpFilter>, s: Service): seq<HttpFilter> {
    Faults(ConfigOf(s).fault) + [HealthFilter(ConfigOf(s).health)] + filters
  }

  function InjectAll(svcs: seq<Service>): seq<HttpFilter> {
    if svcs == [] then [Router] else Inject(InjectAll(svcs[..|svcs| - 1]), svcs[|svcs| - 1])
  }

  /******* transform *******/

  /** globalCluster after the nodes in order have been visited. */
  function GlobalServices(p: Provider, order: seq<string>): seq<Service>
    requires forall n :: n in order ==> n in p
  {
    if order == [] then []
    else GlobalServices(p, order[..|order| - 1]) + EgressServices(p[order[|order| - 1]])
  }

  function VHostsFor(svcs: seq<Service>): seq<VirtualHost> {
    seq(|svcs|, i requires 0 <= i < |svcs| => VHost(svcs[i].name, svcs[i].name))
  }

  /** globalVHosts after the nodes in order have been visited. */
  function GlobalVHosts(p: Provider, order: seq<string>): seq<VirtualHost>
    requires forall n :: n in order ==> n in p
  {
    if order == [] then []
    else GlobalVHosts(p, order[..|order| - 1]) + VHostsFor(p[order[|order| - 1]])
  }

  function AddLocal(n: NodeState, s: Service): NodeState {
    AddRoute(AddService(n, Service(LocalName(s.name), s.endpoints)), INGRESS_ROUTE, [VHost(s.name, LocalName(s.name))])
  }

  function AddLocals(n: NodeState, svcs: seq<Service>): NodeState {
    if svcs == [] then n else AddLocal(AddLocals(n, svcs[..|svcs| - 1]), svcs[|svcs| - 1])
  }

  /** The part that all sidecars share: all services, with one route to them. */
  function Shared(name: string, global: seq<Service>, route: string, vhosts: seq<VirtualHost>): NodeState {
    AddRoute(AddServices(NewNode(name), global), route, vhosts)
  }

  function Sidecar(name: string, svcs: seq<Service>, global: seq<Service>, vhosts: seq<VirtualHost>): NodeState {
    var n := AddLocals(Shared(name, global, EGRESS_ROUTE, vhosts), svcs);
    n.(listeners := [ListenerResource("default-ingress", INGRESS_ROUTE, InjectAll(svcs)),
                     ListenerResource("default-egress", EGRESS_ROUTE, [Router])])
  }

  function FrontProxy(global: seq<Service>, vhosts: seq<VirtualHost>): NodeState {
    Shared("ingress", global, INGRESS_ROUTE, vhosts).(
      listeners := [ListenerResource("", INGRESS_ROUTE, [ExtAuthz, Router])])
  }

  /** What transform builds for node n of the provider. */
  function NodeOf(p: Provider, order: seq<string>, n: string): NodeState
    requires (forall m :: m in order ==> m in p) && n in p
  {
    Sidecar(n, p[n], GlobalServices(p, order), GlobalVHosts(p, order))
  }

  function Front(p: Provider, order: seq<string>): NodeState
    requires forall m :: m in order ==> m in p
  {
    FrontProxy(GlobalServices(p, order), GlobalVHosts(p, order))
  }

  /** The i-th node that transform returns: the sidecars in the order of visit, then the front proxy. */
  ghost function MeshNode(p: Provider, order: seq<string>, visit: seq<string>, i: nat): NodeState
    requires Ordering(order, p.Keys) && Ordering(visit, p.Keys) && i <= |visit|
  {
    if i < |visit| then assert visit[i] in visit; NodeOf(p, order, visit[i]) else Front(p, order)
  }

  /******* What the steps add up to *******/

  /** All endpoints of the services called x, in the order of the list. */
  function EndpointsNamed(svcs: seq<Service>, x: string): seq<Endpoint> {
    if svcs == [] then []
    else EndpointsNamed(svcs[..|svcs| - 1], x) + (if svcs[|svcs| - 1].name == x then svcs[|svcs| - 1].endpoints else [])
  }

  ghost function Names(svcs: seq<Service>): set<string> {
    set i | 0 <= i < |svcs| :: svcs[i].name
  }

  /** Every load assignment, cluster and route is filed under its own name and has the right shape; clusters and
      load assignments go together. */
  ghost predicate NodeOk(n: NodeState) {
    && WellKeyed(n.clusters) && WellKeyed(n.endpoints) && WellKeyed(n.routes)
    && n.clusters.Keys == n.endpoints.Keys
    && (forall x :: x in n.clusters ==>
          n.clusters[x].EnvoyCluster? && n.clusters[x].eds && n.clusters[x].serviceName == "")
    && (forall x :: x in n.endpoints ==> n.endpoints[x].LoadAssignment?)
    && (forall x :: x in n.routes ==> n.routes[x].RouteConfiguration?)
  }

  /** From n to m the node gains load assignments of these names, and these endpoints under x. */
  ghost predicate Gains(n: NodeState, m: NodeState, names: set<string>, x: string, eps: seq<Endpoint>) {
    && NodeOk(m)
    && m.endpoints.Keys == n.endpoints.Keys + names
    && Lbs(m.endpoints, x) == Lbs(n.endpoints, x) + ToLb(eps)
    && m.listeners == n.listeners && m.name == n.name
  }

  ghost predicate SameRoutes(n: NodeState, m: NodeState) {
    m.routes == n.routes && m.vhostExists == n.vhostExists
  }

  lemma GainsNothing(n: NodeState, x: string)
    requires NodeOk(n)
    ensures Gains(n, n, {}, x, [])
  {
  }

  lemma GainsMore(n: NodeState, m: NodeState, k: NodeState, names: set<string>, names': set<string>, x: string,
                  eps: seq<Endpoint>, eps': seq<Endpoint>)
    requires Gains(n, m, names, x, eps) && Gains(m, k, names', x, eps')
    ensures Gains(n, k, names + names', x, eps + eps')
  {
    ToLbConcat(eps, eps');
    AppendAssoc(Lbs(n.endpoints, x), ToLb(eps), ToLb(eps'));
  }

  lemma ToLbConcat(a: seq<Endpoint>, b: seq<Endpoint>)
    ensures ToLb(a + b) == ToLb(a) + ToLb(b)
  {
  }

  lemma AppendAssoc<T>(a: seq<T>, b: seq<T>, c: seq<T>)
    ensures (a + b) + c == a + (b + c)
  {
  }

  lemma PutClusterOk(n: NodeState, name: string, c: Resource, eps: seq<Endpoint>)
    requires NodeOk(n) && c.EnvoyCluster? && c.name == name && c.eds && c.serviceName == ""
    ensures NodeOk(PutCluster(n, name, c, eps))
  {
  }

  lemma PutClusterEffect(n: NodeState, name: string, c: Resource, eps: seq<Endpoint>, x: string)
    requires NodeOk(n) && NodeOk(PutCluster(n, name, c, eps))
    ensures Gains(n, PutCluster(n, name, c, eps), {name}, x, if name == x then eps else [])
    ensures SameRoutes(n, PutCluster(n, name, c, eps))
  {
  }

  lemma AddServiceEffect(n: NodeState, s: Service, x: string)
    requires NodeOk(n)
    ensures Gains(n, AddService(n, s), {s.name}, x, if s.name == x then s.endpoints else [])
    ensures SameRoutes(n, AddService(n, s))
  {
    PutClusterOk(n, s.name, ClusterFor(s), s.endpoints);
    PutClusterEffect(n, s.name, ClusterFor(s), s.endpoints, x);
  }

  lemma NamesLast(svcs: seq<Service>)
    requires svcs != []
    ensures Names(svcs) == Names(svcs[..|svcs| - 1]) + {svcs[|svcs| - 1].name}
  {
  }

  lemma {:induction false} AddServicesEffect(n: NodeState, svcs: seq<Service>, x: string)
    requires NodeOk(n)
    ensures Gains(n, AddServices(n, svcs), Names(svcs), x, EndpointsNamed(svcs, x))
    ensures SameRoutes(n, AddServices(n, svcs))
  {
    if svcs == [] {
      GainsNothing(n, x);
    } else {
      var rest, s := svcs[..|svcs| - 1], svcs[|svcs| - 1];
      AddServicesEffect(n, rest, x);
      AddServiceEffect(AddServices(n, rest), s, x);
      NamesLast(svcs);
      GainsMore(n, AddServices(n, rest), AddServices(n, svcs), Names(rest), {s.name}, x,
                EndpointsNamed(rest, x), if s.name == x then s.endpoints else []);
    }
  }

  /** From n to m only routes called route change, and only by virtual hosts. */
  ghost predicate OnlyRoute(n: NodeState, m: NodeState, route: string) {
    && NodeOk(m)
    && m.endpoints == n.endpoints && m.clusters == n.clusters && m.listeners == n.listeners && m.name == n.name
    && m.routes.Keys == n.routes.Keys + {route}
    && forall r :: r != route ==> VHosts(m.routes, r) == VHosts(n.routes, r) && Seen(m, r) == Seen(n, r)
  }

  lemma {:induction false} AddVHostsEffect(n: NodeState, route: string, vs: seq<VirtualHost>)
    requires NodeOk(n) && route in n.routes
    ensures OnlyRoute(n, AddVHosts(n, route, vs), route)
  {
    if vs != [] {
      AddVHostsEffect(n, route, vs[..|vs| - 1]);
      var m := AddVHosts(n, route, vs[..|vs| - 1]);
      AddVHostEffect(m, route, vs[|vs| - 1]);
      OnlyRouteMore(n, m, AddVHost(m, route, vs[|vs| - 1]), route);
    }
  }

  lemma AddVHostEffect(n: NodeState, route: string, v: VirtualHost)
    requires NodeOk(n) && route in n.routes
    ensures OnlyRoute(n, AddVHost(n, route, v), route)
  {
  }

  lemma OnlyRouteMore(n: NodeState, m: NodeState, k: NodeState, route: string)
    requires OnlyRoute(n, m, route) && OnlyRoute(m, k, route)
    ensures OnlyRoute(n, k, route)
  {
  }

  lemma AddOneVHost(n: NodeState, route: string, v: VirtualHost)
    requires NodeOk(n) && route in n.routes
    ensures AddVHosts(n, route, [v]) == AddVHost(n, route, v)
    ensures NodeOk(AddVHost(n, route, v)) && route in AddVHost(n, route, v).routes
  {
    assert [v][..0] == [];
    AddVHostsEffect(n, route, [v]);
  }

  lemma AddRouteEffect(n: NodeState, route: string, vs: seq<VirtualHost>)
    requires NodeOk(n)
    ensures OnlyRoute(n, AddRoute(n, route, vs), route)
  {
    var start := if route in n.routes then n else n.(routes := n.routes[route := RouteConfiguration(route, [])]);
    assert NodeOk(start);
    AddVHostsEffect(start, route, vs);
  }

  function Locals(svcs: seq<Service>): seq<Service> {
    seq(|svcs|, i requires 0 <= i < |svcs| => Service(LocalName(svcs[i].name), svcs[i].endpoints))
  }

  lemma AddLocalEffect(n: NodeState, s: Service, x: string)
    requires NodeOk(n)
    ensures Gains(n, AddLocal(n, s), {LocalName(s.name)}, x, if LocalName(s.name) == x then s.endpoints else [])
    ensures AddLocal(n, s).routes.Keys == n.routes.Keys + {INGRESS_ROUTE}
    ensures forall r :: r != INGRESS_ROUTE ==> VHosts(AddLocal(n, s).routes, r) == VHosts(n.routes, r)
  {
    var l := Service(LocalName(s.name), s.endpoints);
    AddServiceEffect(n, l, x);
    AddRouteEffect(AddService(n, l), INGRESS_ROUTE, [VHost(s.name, LocalName(s.name))]);
  }

  /** Locals of a list, without and with its last service. */
  lemma LocalsLast(svcs: seq<Service>)
    requires svcs != []
    ensures var rest, s := svcs[..|svcs| - 1], svcs[|svcs| - 1];
            && Locals(svcs)[..|svcs| - 1] == Locals(rest)
            && Locals(svcs)[|svcs| - 1] == Service(LocalName(s.name), s.endpoints)
  {
  }

  lemma {:induction false} AddLocalsEffect(n: NodeState, svcs: seq<Service>, x: string)
    requires NodeOk(n)
    ensures Gains(n, AddLocals(n, svcs), Names(Locals(svcs)), x, EndpointsNamed(Locals(svcs), x))
  {
    if svcs == [] {
      GainsNothing(n, x);
    } else {
      var rest, s := svcs[..|svcs| - 1], svcs[|svcs| - 1];
      var m, local := AddLocals(n, rest), LocalName(s.name);
      AddLocalsEffect(n, rest, x);
      AddLocalEffect(m, s, x);
      LocalsLast(svcs);
      NamesLast(Locals(svcs));
      GainsMore(n, m, AddLocal(m, s), Names(Locals(rest)), {local}, x,
                EndpointsNamed(Locals(rest), x), if local == x then s.endpoints else []);
    }
  }

  lemma {:induction false} AddLocalsRoutes(n: NodeState, svcs: seq<Service>, r: string)
    requires NodeOk(n) && r != INGRESS_ROUTE
    ensures NodeOk(AddLocals(n, svcs))
    ensures AddLocals(n, svcs).routes.Keys == n.routes.Keys + (if svcs == [] then {} else {INGRESS_ROUTE})
    ensures VHosts(AddLocals(n, svcs).routes, r) == VHosts(n.routes, r)
  {
    if svcs != [] {
      AddLocalsRoutes(n, svcs[..|svcs| - 1], r);
      AddLocalEffect(AddLocals(n, svcs[..|svcs| - 1]), svcs[|svcs| - 1], "");
    }
  }
}
