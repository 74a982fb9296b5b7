/** The mesh compiler as the program runs it: Node and Listener objects that are filled in place, and the loops of
    transform (pkg/provider/node.go, listener.go, util.go, updater.go). */
module MeshObject {
  import opened Xds
  import opened Config
  import opened Mesh
  import Settings
  import Routing

  method MakeEgressEndpoints(eps: seq<Endpoint>) returns (out: seq<Endpoint>)
    ensures out == EgressEndpoints(eps)
    ensures |out| == |eps| && forall i :: 0 <= i < |eps| ==>
              out[i].address == eps[i].address && out[i].annotations == eps[i].annotations && out[i].port == 4100
  {
    out := [];
    for i := 0 to |eps|
      invariant out == EgressEndpoints(eps[..i])
    {
      out := out + [Endpoint(eps[i].address, eps[i].annotations, INGRESS_PORT)];
    }
    assert eps[..|eps|] == eps;
  }

  method MakeEgressServices(svcs: seq<Service>) returns (out: seq<Service>)
    ensures out == EgressServices(svcs)
    ensures |out| == |svcs| && forall i :: 0 <= i < |svcs| ==>
              out[i].name == svcs[i].name && |out[i].endpoints| == |svcs[i].endpoints|
  {
    out := [];
    for i := 0 to |svcs|
      invariant out == EgressServices(svcs[..i])
    {
      var eps := MakeEgressEndpoints(svcs[i].endpoints);
      out := out + [Service(svcs[i].name, eps)];
    }
    assert svcs[..|svcs|] == svcs;
  }

  /** The endpoint has the key, and no later one does. */
  predicate IsLastWith(eps: seq<Endpoint>, i: nat, k: string)
    requires i < |eps|
  {
    k in eps[i].annotations && forall j :: i < j < |eps| ==> k !in eps[j].annotations
  }

  /** Visits the endpoints in order and the annotations of each in any order. */
  method MergeAnnotations(eps: seq<Endpoint>) returns (out: Annotations)
    ensures out == Merged(eps)
    ensures forall k :: k in out <==> exists i :: 0 <= i < |eps| && k in eps[i].annotations
    ensures forall i, k :: 0 <= i < |eps| && IsLastWith(eps, i, k) ==> k in out && out[k] == eps[i].annotations[k]
  {
    out := map[];
    for i := 0 to |eps|
      invariant out == Merged(eps[..i])
      invariant forall k :: k in out <==> exists j :: 0 <= j < i && k in eps[j].annotations
    {
      var before := out;
      var ann := eps[i].annotations;
      var todo := ann.Keys;
      while todo != {}
        invariant todo <= ann.Keys
        invariant out == before + (map k | k in ann && k !in todo :: ann[k])
        decreases todo
      {
        var k :| k in todo;
        out := out[k := ann[k]];
        todo := todo - {k};
      }
      assert (map k | k in ann && k !in todo :: ann[k]) == ann;
      assert eps[..i + 1][..i] == eps[..i];
    }
    assert eps[..|eps|] == eps;
    forall i, k | 0 <= i < |eps| && IsLastWith(eps, i, k)
      ensures k in out && out[k] == eps[i].annotations[k]
    {
      Settings.LaterWins(eps, k);
      assert Settings.LastHas(eps, k, eps[i].annotations[k]);
    }
  }

  /** The configuration of a service, from the merged annotations of its endpoints. */
  method ServiceConfig(s: Service) returns (config: ClusterConfig)
    ensures config == ConfigOf(s)
  {
    var merged := MergeAnnotations(s.endpoints);
    config := ParseClusterAnnotations(merged);
  }

  method ToLbEndpoints(eps: seq<Endpoint>) returns (out: seq<LbEndpoint>)
    ensures out == ToLb(eps)
    ensures |out| == |eps|
    ensures forall i :: 0 <= i < |eps| ==> out[i].address == eps[i].address && out[i].port == eps[i].port
    ensures forall i :: 0 <= i < |eps| && "endpoint.weight" !in eps[i].annotations ==> out[i].weight == 64
  {
    out := [];
    for i := 0 to |eps|
      invariant out == ToLb(eps[..i])
    {
      out := out + [LbEndpoint(eps[i].address, eps[i].port, Weight(eps[i].annotations))];
    }
    assert eps[..|eps|] == eps;
    forall i | 0 <= i < |eps| && "endpoint.weight" !in eps[i].annotations ensures out[i].weight == 64 {
      WeightExactly(eps[i].annotations);
    }
  }

  /** Lists the resources of a map in whatever order it is visited. */
  method ListResources(m: map<string, Resource>) returns (out: seq<Resource>)
    ensures Lists(m, out)
  {
    out := [];
    ghost var order: seq<string> := [];
    var todo := m.Keys;
    while todo != {}
      invariant todo <= m.Keys
      invariant ListedBy(order, map k | k in m && k !in todo :: m[k], out)
      decreases todo
    {
      var k :| k in todo;
      ghost var next := map j | j in m && j !in todo - {k} :: m[j];
      assert k !in order;
      ghost var longer := order + [k];
      forall j ensures j in longer <==> j in next.Keys {
        assert j in longer <==> j in order || j == k;
      }
      out, order, todo := out + [m[k]], longer, todo - {k};
      assert ListedBy(order, next, out);
    }
    assert (map k | k in m && k !in todo :: m[k]) == m;
  }

  class Listener {
    const name: string
    const targetRoute: string
    var httpFilters: seq<HttpFilter>
    var filterChains: seq<seq<NetworkFilter>>

    constructor (name: string, targetRoute: string)
      ensures this.name == name && this.targetRoute == targetRoute
      ensures httpFilters == [Router] && filterChains == [[]]
    {
      this.name, this.targetRoute := name, targetRoute;
      httpFilters, filterChains := [Router], [[]];
    }

    /** In front, only if enabled; an abort or a delay of no chance or no size is left out. */
    method InjectFault(cfg: FaultConfig)
      modifies this`httpFilters
      ensures httpFilters == Faults(cfg) + old(httpFilters)
      ensures !cfg.enabled ==> httpFilters == old(httpFilters)
      ensures cfg.enabled ==> |httpFilters| == |old(httpFilters)| + 1 && httpFilters[1..] == old(httpFilters)
      ensures cfg.enabled ==>
                var f := httpFilters[0];
                && f.Fault?
                && (f.abort.Some? <==> cfg.abortChance > 0 && cfg.abortCode > 0)
                && (f.abort.Some? ==> f.abort.value.code == cfg.abortCode && f.abort.value.percent == cfg.abortChance)
                && (f.delay.Some? <==> cfg.delayChance > 0 && cfg.delayDuration > 0)
                && (f.delay.Some? ==>
                      f.delay.value.duration == cfg.delayDuration && f.delay.value.percent == cfg.delayChance)
    {
      if !cfg.enabled { return; }
      var httpFault := Fault(None, None);
      if cfg.abortChance > 0 && cfg.abortCode > 0 {
        httpFault := httpFault.(abort := Some(Abort(cfg.abortCode, cfg.abortChance)));
      }
      if cfg.delayChance > 0 && cfg.delayDuration > 0 {
        httpFault := httpFault.(delay := Some(Delay(cfg.delayDuration, cfg.delayChance)));
      }
      httpFilters := [httpFault] + httpFilters;
    }

    method InjectAuthz()
      modifies this`httpFilters
      ensures httpFilters == [ExtAuthz] + old(httpFilters)
    {
      httpFilters := [ExtAuthz] + httpFilters;
    }

    method InjectHealthCheckCache(s: Service)
      modifies this`httpFilters
      ensures httpFilters == [HealthFilter(ConfigOf(s).health)] + old(httpFilters)
      ensures |httpFilters| == |old(httpFilters)| + 1 && httpFilters[1..] == old(httpFilters)
      ensures Settings.HealthReads(s.endpoints, httpFilters[0])
    {
      Settings.HealthFilterReads(s);
      var cfg := ServiceConfig(s);
      httpFilters := [HealthCheck(cfg.health.cacheDuration, cfg.health.path)] + httpFilters;
    }

    /** Resets the filter chain first, so that there is exactly one network filter however often it is called. */
    method Resource() returns (r: Resource)
      requires |filterChains| == 1
      modifies this`filterChains
      ensures r == ListenerResource(name, targetRoute, httpFilters)
      ensures var manager := NetworkFilter("envoy.http_connection_manager", Some(targetRoute), httpFilters);
              r == EnvoyListener(name, [[manager]])
      ensures filterChains == r.filterChains
    {
      filterChains := filterChains[0 := []];
      var manager := NetworkFilter(HTTP_CONNECTION_MANAGER, Some(targetRoute), httpFilters);
      filterChains := filterChains[0 := filterChains[0] + [manager]];
      assert filterChains[0] == [manager];
      assert filterChains == [[manager]];
      r := EnvoyListener(name, filterChains);
    }

    /** One service of the loop in transform: health check first, then the fault, each in front of what is there. */
    method InjectService(s: Service)
      modifies this`httpFilters
      ensures httpFilters == Inject(old(httpFilters), s)
    {
      InjectHealthCheckCache(s);
      var config := ServiceConfig(s);
      InjectFault(config.fault);
    }
  }

  class Node {
    const name: string
    var clusters: map<string, Resource>
    var endpoints: map<string, Resource>
    var routes: map<string, Resource>
    var vhostExists: map<string, set<string>>
    var listeners: seq<Resource>

    ghost function State(): NodeState
      reads this
    {
      NodeState(name, clusters, endpoints, routes, vhostExists, listeners)
    }

    constructor (name: string)
      ensures State() == NewNode(name)
    {
      this.name := name;
      clusters, endpoints, routes, vhostExists, listeners := map[], map[], map[], map[], [];
    }

    method AddEndpoints(cluster: string, eps: seq<Endpoint>)
      requires cluster in endpoints ==> endpoints[cluster].LoadAssignment?
      modifies this`endpoints
      ensures State() == Mesh.AddEndpoints(old(State()), cluster, eps)
    {
      if cluster !in endpoints {
        endpoints := endpoints[cluster := LoadAssignment(cluster, [])];
      }
      var lbs := ToLbEndpoints(eps);
      endpoints := endpoints[cluster := endpoints[cluster].(lbEndpoints := endpoints[cluster].lbEndpoints + lbs)];
    }

    method AddCluster(svcs: seq<Service>)
      requires NodeOk(State())
      modifies this`clusters, this`endpoints
      ensures State() == AddServices(old(State()), svcs)
      ensures NodeOk(State())
      ensures Settings.ServicesRead(old(State()), svcs, clusters)
    {
      ghost var start := State();
      for i := 0 to |svcs|
        invariant State() == AddServices(start, svcs[..i]) && NodeOk(State())
      {
        var s := svcs[i];
        ghost var before := State();
        if s.name !in clusters {
          var config := ServiceConfig(s);
          clusters := clusters[s.name := EnvoyCluster(s.name, true, "", SettingsOf(config))];
        }
        AddEndpoints(s.name, s.endpoints);
        assert State() == AddService(before, s);
        AddServiceEffect(before, s, "");
        assert svcs[..i + 1][..i] == svcs[..i];
      }
      assert svcs[..|svcs|] == svcs;
      Settings.AddServicesReads(start, svcs);
    }

    /** One iteration of AddRoute: the virtual host is kept if its name is new in the route. */
    method KeepFirst(route: string, v: VirtualHost)
      requires route in routes && routes[route].RouteConfiguration?
      modifies this`routes, this`vhostExists
      ensures State() == AddVHost(old(State()), route, v)
    {
      if route !in vhostExists {
        vhostExists := vhostExists[route := {}];
      }
      if v.name !in vhostExists[route] {
        vhostExists := vhostExists[route := vhostExists[route] + {v.name}];
        routes := routes[route := routes[route].(virtualHosts := routes[route].virtualHosts + [v])];
      }
    }

    method AddRoute(route: string, vhosts: seq<VirtualHost>)
      requires NodeOk(State())
      modifies this`routes, this`vhostExists
      ensures State() == Mesh.AddRoute(old(State()), route, vhosts)
      ensures NodeOk(State())
    {
      if route !in routes {
        routes := routes[route := RouteConfiguration(route, [])];
      }
      ghost var start := State();
      for i := 0 to |vhosts|
        invariant State() == AddVHosts(start, route, vhosts[..i]) && NodeOk(State()) && route in routes
      {
        AddOneVHost(State(), route, vhosts[i]);
        KeepFirst(route, vhosts[i]);
        assert vhosts[..i + 1][..i] == vhosts[..i];
      }
      assert vhosts[..|vhosts|] == vhosts;
    }

    method AddListener(lis: seq<Resource>)
      modifies this`listeners
      ensures State() == old(State()).(listeners := old(listeners) + lis)
    {
      listeners := listeners + lis;
    }
  }

  /******* transform *******/

  /** First loop: all services and virtual hosts of the mesh, in the order in which the map is visited. */
  method CollectGlobal(p: Provider) returns (global: seq<Service>, vhosts: seq<VirtualHost>, ghost order: seq<string>)
    ensures Ordering(order, p.Keys)
    ensures global == GlobalServices(p, order) && vhosts == GlobalVHosts(p, order)
  {
    global, vhosts, order := [], [], [];
    var todo := p.Keys;
    while todo != {}
      invariant todo <= p.Keys && Ordering(order, p.Keys - todo)
      invariant global == GlobalServices(p, order) && vhosts == GlobalVHosts(p, order)
      decreases todo
    {
      var n :| n in todo;
      var egress := MakeEgressServices(p[n]);
      var hosts := MakeVHosts(p[n]);
      OrderingNext(order, p.Keys - todo, n);
      assert p.Keys - todo + {n} == p.Keys - (todo - {n});
      assert (order + [n])[..|order|] == order;
      global, vhosts, order, todo := global + egress, vhosts + hosts, order + [n], todo - {n};
    }
    assert p.Keys - todo == p.Keys;
  }

  lemma OrderingNext(order: seq<string>, keys: set<string>, n: string)
    requires Ordering(order, keys) && n !in keys
    ensures Ordering(order + [n], keys + {n})
  {
    assert n !in order;
    forall x ensures x in order + [n] <==> x in keys + {n} {
      assert x in order + [n] <==> x in order || x == n;
    }
  }

  method MakeVHosts(svcs: seq<Service>) returns (out: seq<VirtualHost>)
    ensures out == VHostsFor(svcs)
    ensures |out| == |svcs| && forall i :: 0 <= i < |svcs| ==>
              out[i] == VirtualHost("vhost_" + svcs[i].name, [svcs[i].name, svcs[i].name + ":4100"], svcs[i].name)
  {
    out := [];
    for i := 0 to |svcs|
      invariant out == VHostsFor(svcs[..i])
    {
      out := out + [VHost(svcs[i].name, svcs[i].name)];
    }
    assert svcs[..|svcs|] == svcs;
  }

  /** One iteration of the second loop: the sidecar of one node. */
  method BuildSidecar(name: string, svcs: seq<Service>, global: seq<Service>, vhosts: seq<VirtualHost>)
      returns (node: Node)
    ensures fresh(node) && node.State() == Sidecar(name, svcs, global, vhosts)
  {
    node := new Node(name);
    node.AddCluster(global);
    node.AddRoute(EGRESS_ROUTE, vhosts);
    var ingress := new Listener("default-ingress", INGRESS_ROUTE);
    var egress := new Listener("default-egress", EGRESS_ROUTE);
    AddOwnServices(node, ingress, svcs);
    var i := ingress.Resource();
    var e := egress.Resource();
    node.AddListener([i, e]);
    assert node.listeners == [i, e];
  }

  /** The inner loop: the services of the node itself. */
  method AddOwnServices(node: Node, ingress: Listener, svcs: seq<Service>)
    requires NodeOk(node.State()) && ingress.httpFilters == [Router]
    modifies node`clusters, node`endpoints, node`routes, node`vhostExists, ingress`httpFilters
    ensures node.State() == AddLocals(old(node.State()), svcs)
    ensures ingress.httpFilters == InjectAll(svcs)
  {
    ghost var start := node.State();
    for i := 0 to |svcs|
      invariant node.State() == AddLocals(start, svcs[..i]) && NodeOk(node.State())
      invariant ingress.httpFilters == InjectAll(svcs[..i])
    {
      AddOwn(node, ingress, svcs[i]);
      assert svcs[..i + 1][..i] == svcs[..i];
    }
    assert svcs[..|svcs|] == svcs;
  }

  method AddOwn(node: Node, ingress: Listener, s: Service)
    requires NodeOk(node.State())
    modifies node`clusters, node`endpoints, node`routes, node`vhostExists, ingress`httpFilters
    ensures node.State() == AddLocal(old(node.State()), s) && NodeOk(node.State())
    ensures ingress.httpFilters == Inject(old(ingress.httpFilters), s)
  {
    var local := LocalName(s.name);
    ghost var before := node.State();
    node.AddCluster([Service(local, s.endpoints)]);
    assert [Service(local, s.endpoints)][..0] == [];
    assert node.State() == AddService(before, Service(local, s.endpoints));
    node.AddRoute(INGRESS_ROUTE, [VHost(s.name, local)]);
    ingress.InjectService(s);
  }

  method BuildFrontProxy(global: seq<Service>, vhosts: seq<VirtualHost>) returns (node: Node)
    ensures fresh(node) && node.State() == FrontProxy(global, vhosts)
    ensures node.name == "ingress" && node.listeners ==
              [EnvoyListener("", [[NetworkFilter("envoy.http_connection_manager", Some("ingress_route"),
                                                 [ExtAuthz, Router])]])]
  {
    node := new Node("ingress");
    node.AddCluster(global);
    node.AddRoute(INGRESS_ROUTE, vhosts);
    var ingress := new Listener("", INGRESS_ROUTE);
    ingress.InjectAuthz();
    assert ingress.httpFilters == [ExtAuthz, Router];
    var i := ingress.Resource();
    node.AddListener([i]);
    assert node.listeners == [i];
  }

  /** Second loop: a sidecar for every node, in the order in which the map is visited this time. */
  method BuildSidecars(p: Provider, global: seq<Service>, vhosts: seq<VirtualHost>)
      returns (nodes: seq<Node>, ghost visit: seq<string>)
    ensures Ordering(visit, p.Keys) && |nodes| == |visit|
    ensures forall i :: 0 <= i < |visit| ==>
              visit[i] in p && nodes[i].State() == Sidecar(visit[i], p[visit[i]], global, vhosts)
    ensures forall i :: 0 <= i < |nodes| ==> fresh(nodes[i])
  {
    nodes, visit := [], [];
    var todo := p.Keys;
    while todo != {}
      invariant todo <= p.Keys && Ordering(visit, p.Keys - todo) && |nodes| == |visit|
      invariant forall i :: 0 <= i < |visit| ==>
                  visit[i] in p && nodes[i].State() == Sidecar(visit[i], p[visit[i]], global, vhosts)
      invariant forall i :: 0 <= i < |nodes| ==> fresh(nodes[i])
      decreases todo
    {
      var n :| n in todo;
      var node := BuildSidecar(n, p[n], global, vhosts);
      OrderingNext(visit, p.Keys - todo, n);
      assert p.Keys - todo + {n} == p.Keys - (todo - {n});
      nodes, visit, todo := nodes + [node], visit + [n], todo - {n};
    }
    assert p.Keys - todo == p.Keys;
  }

  /** The nodes of the mesh: a sidecar for every node of the provider, in some order, and the front proxy last. The
      two loops over the map may visit it in different orders. */
  method Transform(p: Provider) returns (nodes: seq<Node>, ghost order: seq<string>, ghost visit: seq<string>)
    ensures Ordering(order, p.Keys) && Ordering(visit, p.Keys)
    ensures |nodes| == |visit| + 1
    ensures forall i :: 0 <= i < |nodes| ==> nodes[i].State() == MeshNode(p, order, visit, i)
    ensures forall i :: 0 <= i < |nodes| ==> fresh(nodes[i])
  {
    var global, vhosts;
    global, vhosts, order := CollectGlobal(p);
    nodes, visit := BuildSidecars(p, global, vhosts);
    var front := BuildFrontProxy(global, vhosts);
    nodes := nodes + [front];
  }
}
