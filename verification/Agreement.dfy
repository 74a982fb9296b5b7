/** When exactly two compilations of one node, from whatever providers in whatever orders, agree on its listeners, on
    its clusters and on its routes. */
module Agreement {
  import opened Xds
  import opened Config
  import opened Mesh
  import opened Routing

  /******* When two compiled nodes agree on the listeners *******/

  /** The two configurations give the same filters. */
  predicate SameFilterConfig(c: ClusterConfig, d: ClusterConfig) {
    HealthFilter(c.health) == HealthFilter(d.health) && Faults(c.fault) == Faults(d.fault)
  }

  /** As many services, with the same filters at each position. */
  predicate SameFilters(a: seq<Service>, b: seq<Service>) {
    |a| == |b| && forall i :: 0 <= i < |a| ==> SameFilterConfig(ConfigOf(a[i]), ConfigOf(b[i]))
  }

  lemma InjectEqual(x: seq<HttpFilter>, y: seq<HttpFilter>, s: Service, t: Service)
    ensures Inject(x, s) == Inject(y, t) <==> x == y && SameFilterConfig(ConfigOf(s), ConfigOf(t))
  {
    var c, d := ConfigOf(s), ConfigOf(t);
    var i, j := |Faults(c.fault)|, |Faults(d.fault)|;
    var u, v := Inject(x, s), Inject(y, t);
    assert u[i + 1..] == x && v[j + 1..] == y;
    assert u[..i] == Faults(c.fault) && v[..j] == Faults(d.fault);
    assert u[i] == HealthFilter(c.health) && v[j] == HealthFilter(d.health);
    assert u[0].Fault? <==> i == 1;
    assert v[0].Fault? <==> j == 1;
  }

  lemma InjectAllStarts(svcs: seq<Service>)
    ensures InjectAll(svcs) != [] && (InjectAll(svcs)[0] == Router <==> svcs == [])
  {
  }

  /** The filters of an ingress listener tell how many services there are and the filters of each, and no more. */
  lemma {:induction false} InjectAllExactly(a: seq<Service>, b: seq<Service>)
    ensures InjectAll(a) == InjectAll(b) <==> SameFilters(a, b)
    decreases |a|
  {
    InjectAllStarts(a);
    InjectAllStarts(b);
    if a != [] && b != [] {
      var x, y := a[..|a| - 1], b[..|b| - 1];
      InjectAllExactly(x, y);
      InjectEqual(InjectAll(x), InjectAll(y), a[|a| - 1], b[|b| - 1]);
      SameFiltersLast(a, b);
    }
  }

  lemma SameFiltersLast(a: seq<Service>, b: seq<Service>)
    requires a != [] && b != []
    ensures SameFilters(a, b) <==> SameFilters(a[..|a| - 1], b[..|b| - 1]) &&
                                   SameFilterConfig(ConfigOf(a[|a| - 1]), ConfigOf(b[|b| - 1]))
  {
    var x, y := a[..|a| - 1], b[..|b| - 1];
    assert forall i :: 0 <= i < |x| ==> x[i] == a[i];
    assert forall i :: 0 <= i < |y| ==> y[i] == b[i];
    if SameFilters(x, y) && SameFilterConfig(ConfigOf(a[|a| - 1]), ConfigOf(b[|b| - 1])) {
      forall i | 0 <= i < |a| ensures SameFilterConfig(ConfigOf(a[i]), ConfigOf(b[i])) {
        assert i < |x| ==> SameFilterConfig(ConfigOf(x[i]), ConfigOf(y[i]));
      }
    }
  }

  lemma SidecarListenerGroup(p: Provider, order: seq<string>, n: string)
    requires (forall m :: m in order ==> m in p) && n in p
    ensures var l := Index(NodeOf(p, order, n).listeners);
            && l.Keys == {"default-ingress", "default-egress"}
            && l["default-ingress"] == ListenerResource("default-ingress", INGRESS_ROUTE, InjectAll(p[n]))
            && l["default-egress"] == ListenerResource("default-egress", EGRESS_ROUTE, [Router])
  {
    ListenerNames();
    IndexTwo(ListenerResource("default-ingress", INGRESS_ROUTE, InjectAll(p[n])),
             ListenerResource("default-egress", EGRESS_ROUTE, [Router]));
  }

  /** Two compiled sidecars agree on the listeners exactly when their services are as many, with the same filters at
      each position: health check path and cache time, and the fault, if enabled, with its abort and delay. */
  lemma ListenersAgreeExactly(p: Provider, order: seq<string>, q: Provider, o: seq<string>, n: string)
    requires (forall m :: m in order ==> m in p) && (forall m :: m in o ==> m in q) && n in p && n in q
    ensures Index(NodeOf(p, order, n).listeners) == Index(NodeOf(q, o, n).listeners) <==> SameFilters(p[n], q[n])
  {
    SidecarListenerGroup(p, order, n);
    SidecarListenerGroup(q, o, n);
    InjectAllExactly(p[n], q[n]);
    var l, l' := Index(NodeOf(p, order, n).listeners), Index(NodeOf(q, o, n).listeners);
    if l == l' {
      assert l["default-ingress"].filterChains[0][0].httpFilters == InjectAll(p[n]);
      assert l'["default-ingress"].filterChains[0][0].httpFilters == InjectAll(q[n]);
    }
  }

  /******* When two compiled nodes agree on the clusters *******/

  /** The first services of this name, if any, are configured alike. */
  predicate SameSettings(a: seq<Service>, b: seq<Service>, x: string) {
    var s, t := FirstNamed(a, x), FirstNamed(b, x);
    && (s.Some? <==> t.Some?)
    && (s.Some? ==> SettingsOf(ConfigOf(s.value)) == SettingsOf(ConfigOf(t.value)))
  }

  lemma ClusterNamedEqual(a: seq<Service>, b: seq<Service>, x: string)
    ensures ClusterNamed(a, x) == ClusterNamed(b, x) <==> SameSettings(a, b, x)
  {
  }

  /** Two compiled sidecars agree on the clusters exactly when under every name the first services met are configured
      alike. */
  lemma ClustersAgreeExactly(p: Provider, order: seq<string>, q: Provider, o: seq<string>, n: string)
    requires Ordering(order, p.Keys) && Ordering(o, q.Keys) && n in p && n in q
    ensures NodeOf(p, order, n).clusters == NodeOf(q, o, n).clusters <==>
              forall x :: SameSettings(MetServices(p, order, n), MetServices(q, o, n), x)
  {
    var m, m' := NodeOf(p, order, n), NodeOf(q, o, n);
    var a, b := MetServices(p, order, n), MetServices(q, o, n);
    forall x ensures ClusterAt(m, x) == ClusterAt(m', x) <==> SameSettings(a, b, x) {
      SidecarClusterConfig(p, order, n, x);
      SidecarClusterConfig(q, o, n, x);
      ClusterNamedEqual(a, b, x);
    }
    SameClusters(m, m');
  }

  lemma SameClusters(m: NodeState, n: NodeState)
    ensures m.clusters == n.clusters <==> forall x :: ClusterAt(m, x) == ClusterAt(n, x)
  {
    if forall x :: ClusterAt(m, x) == ClusterAt(n, x) {
      forall x ensures x in m.clusters <==> x in n.clusters { assert ClusterAt(m, x) == ClusterAt(n, x); }
      forall x | x in m.clusters ensures m.clusters[x] == n.clusters[x] { assert ClusterAt(m, x) == ClusterAt(n, x); }
    }
  }

  /******* When two compiled nodes agree on the routes *******/

  /** The name x occurs, and before y does. */
  ghost predicate Before(names: seq<string>, x: string, y: string) {
    exists i :: 0 <= i < |names| && names[i] == x && y !in names[..i + 1]
  }

  /** The same names, first met in the same order. */
  ghost predicate SameFirstOrder(a: seq<string>, b: seq<string>) {
    && Elements(a) == Elements(b)
    && forall x, y :: x in a && y in a ==> (Before(a, x, y) <==> Before(b, x, y))
  }

  lemma BeforeMore(names: seq<string>, h: string, x: string, y: string)
    ensures Before(names + [h], x, y) <==> Before(names, x, y) || (x == h && x != y && y !in names)
  {
    var more := names + [h];
    assert forall i :: 0 <= i < |names| ==> more[..i + 1] == names[..i + 1] && more[i] == names[i];
    if Before(names, x, y) {
      var i :| 0 <= i < |names| && names[i] == x && y !in names[..i + 1];
      assert more[i] == x && y !in more[..i + 1];
    }
    if x == h && x != y && y !in names {
      assert more[|names|] == x && more[..|names| + 1] == more;
    }
    if Before(more, x, y) {
      var i :| 0 <= i < |more| && more[i] == x && y !in more[..i + 1];
      if i < |names| {
        assert names[i] == x && y !in names[..i + 1];
      } else {
        assert more[..i + 1] == more && h in more && forall z :: z in names ==> z in more;
      }
    }
  }

  /** The virtual host of h is at position i. */
  predicate HostAt(vs: seq<VirtualHost>, i: nat, h: string) {
    i < |vs| && vs[i].domains != [] && vs[i].domains[0] == h
  }

  /** x has a virtual host, and y none or a later one. */
  ghost predicate HostBefore(vs: seq<VirtualHost>, x: string, y: string) {
    exists i: nat :: HostAt(vs, i, x) && forall j: nat :: j <= i ==> !HostAt(vs, j, y)
  }

  lemma HostBeforeMore(vs: seq<VirtualHost>, v: VirtualHost, x: string, y: string)
    requires v.domains != []
    ensures HostBefore(vs + [v], x, y) <==>
              HostBefore(vs, x, y) || (v.domains[0] == x && x != y && forall j: nat :: !HostAt(vs, j, y))
  {
    var more := vs + [v];
    assert forall j: nat :: j < |vs| ==> more[j] == vs[j];
    assert forall j: nat, h :: HostAt(more, j, h) <==> HostAt(vs, j, h) || (j == |vs| && v.domains[0] == h);
    if HostBefore(vs, x, y) {
      var i: nat :| HostAt(vs, i, x) && forall j: nat :: j <= i ==> !HostAt(vs, j, y);
      assert HostAt(more, i, x);
    }
    if v.domains[0] == x && x != y && forall j: nat :: !HostAt(vs, j, y) {
      assert HostAt(more, |vs|, x);
    }
    if HostBefore(more, x, y) {
      var i: nat :| HostAt(more, i, x) && forall j: nat :: j <= i ==> !HostAt(more, j, y);
      if i < |vs| {
        assert HostAt(vs, i, x);
      } else {
        forall j: nat ensures !HostAt(vs, j, y) { assert HostAt(vs, j, y) ==> HostAt(more, j, y); }
      }
    }
  }

  lemma {:induction false} RouteHosts(names: seq<string>, local: bool, h: string)
    ensures (exists j: nat :: HostAt(RouteOf(names, local), j, h)) <==> h in names
  {
    RouteServes(names, local);
    var vs := RouteOf(names, local);
    if h in names {
      assert h in Elements(names);
      var j :| 0 <= j < |vs| && vs[j] == VHost(h, Target(h, local));
      assert HostAt(vs, j, h);
    }
    if j: nat :| HostAt(vs, j, h) {
      assert vs[j].domains[0] in Elements(names);
    }
  }

  /** The order of the virtual hosts is that in which the names were first met. */
  lemma {:induction false} RouteKeepsOrder(names: seq<string>, local: bool, x: string, y: string)
    ensures HostBefore(RouteOf(names, local), x, y) <==> Before(names, x, y)
  {
    if names != [] {
      var rest, h := names[..|names| - 1], names[|names| - 1];
      assert names == rest + [h];
      RouteKeepsOrder(rest, local, x, y);
      RouteOfMore(rest, local, h);
      BeforeMore(rest, h, x, y);
      RouteHosts(rest, local, y);
      if h in rest {
        if x == h && x != y && y !in rest { FirstBefore(rest, x, y); }
      } else {
        HostBeforeMore(RouteOf(rest, local), VHost(h, Target(h, local)), x, y);
      }
    }
  }

  lemma FirstBefore(names: seq<string>, x: string, y: string)
    requires x in names && y !in names
    ensures Before(names, x, y)
  {
    var i :| 0 <= i < |names| && names[i] == x;
    assert y !in names[..i + 1];
  }

  /** Routes with the same hosts in the same order are equal. */
  lemma SameHostsSameRoute(u: seq<VirtualHost>, v: seq<VirtualHost>, hosts: set<string>, local: bool)
    requires Serves(u, hosts, local) && Serves(v, hosts, local)
    requires forall x, y :: x in hosts && y in hosts ==> (HostBefore(u, x, y) <==> HostBefore(v, x, y))
    ensures u == v
  {
    forall k: nat | k < |u| && k < |v| && u[..k] == v[..k] ensures u[k] == v[k] { NextHost(u, v, hosts, local, k); }
    EqualByNext(u, v);
    if |u| <= |v| { MoreHosts(u, v, hosts, local); } else { MoreHosts(v, u, hosts, local); }
  }

  lemma NextHost(u: seq<VirtualHost>, v: seq<VirtualHost>, hosts: set<string>, local: bool, k: nat)
    requires Serves(u, hosts, local) && Serves(v, hosts, local) && k < |u| && k < |v| && u[..k] == v[..k]
    requires forall x, y :: x in hosts && y in hosts ==> (HostBefore(u, x, y) <==> HostBefore(v, x, y))
    ensures u[k] == v[k]
  {
    var x, y := u[k].domains[0], v[k].domains[0];
    if x != y {
      HostAtK(u, v, hosts, local, k, x, y);
      HostAtK(v, u, hosts, local, k, y, x);
      assert HostBefore(u, x, y) && HostBefore(v, y, x);
      OnlyOneFirst(v, x, y);
    }
  }

  lemma OnlyOneFirst(vs: seq<VirtualHost>, x: string, y: string)
    ensures HostBefore(vs, x, y) ==> !HostBefore(vs, y, x)
  {
  }

  lemma HostAtK(u: seq<VirtualHost>, v: seq<VirtualHost>, hosts: set<string>, local: bool, k: nat, x: string, y: string)
    requires Serves(u, hosts, local) && Serves(v, hosts, local) && k < |u| && k < |v| && u[..k] == v[..k]
    requires x == u[k].domains[0] && y == v[k].domains[0] && x != y
    ensures HostBefore(u, x, y)
  {
    assert HostAt(u, k, x);
    DistinctHosts(v, hosts, local);
    assert forall j :: 0 <= j < k ==> u[j] == u[..k][j] && v[j] == v[..k][j];
  }

  lemma DistinctHosts(vs: seq<VirtualHost>, hosts: set<string>, local: bool)
    requires Serves(vs, hosts, local)
    ensures forall i, j :: 0 <= i < j < |vs| ==> vs[i].domains[0] != vs[j].domains[0]
  {
    forall i, j | 0 <= i < j < |vs| ensures vs[i].domains[0] != vs[j].domains[0] {
      assert vs[i].name != vs[j].name;
    }
  }

  lemma {:induction false} EqualByNext(u: seq<VirtualHost>, v: seq<VirtualHost>)
    requires forall k: nat :: k < |u| && k < |v| && u[..k] == v[..k] ==> u[k] == v[k]
    ensures var n := if |u| < |v| then |u| else |v|; u[..n] == v[..n]
  {
    var n := if |u| < |v| then |u| else |v|;
    var k: nat := 0;
    while k < n
      invariant k <= n && u[..k] == v[..k]
    {
      assert u[..k + 1] == u[..k] + [u[k]] && v[..k + 1] == v[..k] + [v[k]];
      k := k + 1;
    }
  }

  lemma MoreHosts(u: seq<VirtualHost>, v: seq<VirtualHost>, hosts: set<string>, local: bool)
    requires Serves(u, hosts, local) && Serves(v, hosts, local) && |u| <= |v| && u == v[..|u|]
    ensures |u| == |v|
  {
    DistinctHosts(v, hosts, local);
    if |u| < |v| {
      var j := HostIndex(u, hosts, local, v[|u|].domains[0]);
    }
  }

  lemma HostIndex(vs: seq<VirtualHost>, hosts: set<string>, local: bool, h: string) returns (j: nat)
    requires Serves(vs, hosts, local) && h in hosts
    ensures j < |vs| && vs[j].domains[0] == h
  {
    j :| 0 <= j < |vs| && vs[j] == VHost(h, Target(h, local));
  }

  lemma RouteOfEqual(a: seq<string>, b: seq<string>, local: bool)
    ensures RouteOf(a, local) == RouteOf(b, local) <==> SameFirstOrder(a, b)
  {
    forall x, y ensures HostBefore(RouteOf(a, local), x, y) <==> Before(a, x, y) { RouteKeepsOrder(a, local, x, y); }
    forall x, y ensures HostBefore(RouteOf(b, local), x, y) <==> Before(b, x, y) { RouteKeepsOrder(b, local, x, y); }
    if SameFirstOrder(a, b) {
      RouteServes(a, local);
      RouteServes(b, local);
      SameHostsSameRoute(RouteOf(a, local), RouteOf(b, local), Elements(a), local);
    }
    if RouteOf(a, local) == RouteOf(b, local) {
      forall h ensures h in Elements(a) <==> h in Elements(b) {
        RouteHosts(a, local, h);
        RouteHosts(b, local, h);
      }
    }
  }

  /** Two compiled sidecars agree on the routes exactly when the same services were first met in the same order, over
      the mesh and on the node itself. */
  lemma RoutesAgreeExactly(p: Provider, order: seq<string>, q: Provider, o: seq<string>, n: string)
    requires Ordering(order, p.Keys) && Ordering(o, q.Keys) && n in p && n in q
    ensures NodeOf(p, order, n).routes == NodeOf(q, o, n).routes <==>
              SameFirstOrder(MetNames(p, order), MetNames(q, o)) && SameFirstOrder(NameSeq(p[n]), NameSeq(q[n]))
  {
    RouteOfEqual(MetNames(p, order), MetNames(q, o), false);
    RouteOfEqual(NameSeq(p[n]), NameSeq(q[n]), true);
    SidecarRouteMap(p, order, n);
    SidecarRouteMap(q, o, n);
    RouteMapsEqual(RouteOf(MetNames(p, order), false), RouteOf(NameSeq(p[n]), true),
                   RouteOf(MetNames(q, o), false), RouteOf(NameSeq(q[n]), true));
  }

  /** The egress route, and the ingress route unless it is empty. */
  function RouteMap(egress: seq<VirtualHost>, ingress: seq<VirtualHost>): map<string, Resource> {
    var e := map[EGRESS_ROUTE := RouteConfiguration(EGRESS_ROUTE, egress)];
    if ingress == [] then e else e[INGRESS_ROUTE := RouteConfiguration(INGRESS_ROUTE, ingress)]
  }

  lemma RouteMapsEqual(e: seq<VirtualHost>, i: seq<VirtualHost>, e': seq<VirtualHost>, i': seq<VirtualHost>)
    ensures RouteMap(e, i) == RouteMap(e', i') <==> e == e' && i == i'
  {
    RouteNamesDiffer();
    var m, m' := RouteMap(e, i), RouteMap(e', i');
    assert m[EGRESS_ROUTE].virtualHosts == e && m'[EGRESS_ROUTE].virtualHosts == e';
    assert INGRESS_ROUTE in m <==> i != [];
    assert INGRESS_ROUTE in m' <==> i' != [];
    if i != [] && i' != [] { assert m[INGRESS_ROUTE].virtualHosts == i && m'[INGRESS_ROUTE].virtualHosts == i'; }
  }

  /** The routes of a sidecar. */
  lemma SidecarRouteMap(p: Provider, order: seq<string>, n: string)
    requires Ordering(order, p.Keys) && n in p
    ensures NodeOf(p, order, n).routes == RouteMap(RouteOf(MetNames(p, order), false), RouteOf(NameSeq(p[n]), true))
  {
    SidecarRoutes(p, order, n);
    NoRoute(p[n]);
    IsRouteMap(NodeOf(p, order, n), RouteOf(MetNames(p, order), false), RouteOf(NameSeq(p[n]), true));
  }

  lemma IsRouteMap(node: NodeState, egress: seq<VirtualHost>, ingress: seq<VirtualHost>)
    requires NodeOk(node) && node.routes.Keys == {EGRESS_ROUTE} + (if ingress == [] then {} else {INGRESS_ROUTE})
    requires VHosts(node.routes, EGRESS_ROUTE) == egress && VHosts(node.routes, INGRESS_ROUTE) == ingress
    ensures node.routes == RouteMap(egress, ingress)
  {
    assert node.routes[EGRESS_ROUTE] == RouteConfiguration(EGRESS_ROUTE, egress);
    assert ingress != [] ==> node.routes[INGRESS_ROUTE] == RouteConfiguration(INGRESS_ROUTE, ingress);
  }

  lemma NoRoute(svcs: seq<Service>)
    ensures RouteOf(NameSeq(svcs), true) == [] <==> svcs == []
  {
    if svcs != [] {
      RouteHosts(NameSeq(svcs), true, svcs[0].name);
      assert NameSeq(svcs)[0] == svcs[0].name;
    }
  }
}
