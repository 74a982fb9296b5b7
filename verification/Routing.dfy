/** What the compiled mesh means: every statement here holds for every provider and for every order in which the
    program may visit the provider's map. */
module Routing {
  import opened Xds
  import opened Config
  import opened Mesh

  /******* Endpoints *******/

  ghost function AllNames(p: Provider): set<string> {
    set n, i | n in p && 0 <= i < |p[n]| :: p[n][i].name
  }

  lemma {:induction false} EndpointsNamedConcat(a: seq<Service>, b: seq<Service>, x: string)
    ensures EndpointsNamed(a + b, x) == EndpointsNamed(a, x) + EndpointsNamed(b, x)
  {
    if b == [] {
      assert a + b == a;
    } else {
      EndpointsNamedConcat(a, b[..|b| - 1], x);
      assert (a + b)[..|a + b| - 1] == a + b[..|b| - 1];
    }
  }

  lemma {:induction false} EgressNamed(svcs: seq<Service>, x: string)
    ensures EndpointsNamed(EgressServices(svcs), x) == EgressEndpoints(EndpointsNamed(svcs, x))
  {
    if svcs != [] {
      EgressNamed(svcs[..|svcs| - 1], x);
      assert EgressServices(svcs)[..|svcs| - 1] == EgressServices(svcs[..|svcs| - 1]);
    }
  }

  lemma LocalNameInjective(a: string, b: string)
    requires LocalName(a) == LocalName(b)
    ensures a == b
  {
    assert LocalName(a)[6..] == a && LocalName(b)[6..] == b;
  }

  lemma {:induction false} LocalNamed(svcs: seq<Service>, d: string)
    ensures EndpointsNamed(Locals(svcs), LocalName(d)) == EndpointsNamed(svcs, d)
  {
    if svcs != [] {
      var s := svcs[|svcs| - 1];
      LocalNamed(svcs[..|svcs| - 1], d);
      LocalsLast(svcs);
      if LocalName(s.name) == LocalName(d) { LocalNameInjective(s.name, d); }
    }
  }

  /** What node n contributes to service x, as seen by everyone else: its endpoints, at the ingress port. */
  ghost function Share(p: Provider, n: string, x: string): multiset<LbEndpoint>
    requires n in p
  {
    multiset(ToLb(EgressEndpoints(EndpointsNamed(p[n], x))))
  }

  /** The shares of a set of nodes, with no order among them. */
  ghost function Shares(p: Provider, nodes: set<string>, x: string): multiset<LbEndpoint>
    requires nodes <= p.Keys
  {
    if nodes == {} then multiset{} else
    var n :| n in nodes; Share(p, n, x) + Shares(p, nodes - {n}, x)
  }

  lemma {:induction false} SharesWithout(p: Provider, nodes: set<string>, n: string, x: string)
    requires nodes <= p.Keys && n in nodes
    ensures Shares(p, nodes, x) == Share(p, n, x) + Shares(p, nodes - {n}, x)
    decreases nodes
  {
    var m :| m in nodes && Shares(p, nodes, x) == Share(p, m, x) + Shares(p, nodes - {m}, x);
    if m != n {
      SharesWithout(p, nodes - {m}, n, x);
      SharesWithout(p, nodes - {n}, m, x);
      assert nodes - {m} - {n} == nodes - {n} - {m};
    }
  }

  lemma {:induction false} OrderedShares(p: Provider, order: seq<string>, nodes: set<string>, x: string)
    requires Ordering(order, nodes) && nodes <= p.Keys
    ensures multiset(ToLb(EndpointsNamed(GlobalServices(p, order), x))) == Shares(p, nodes, x)
    decreases |order|
  {
    if order == [] {
      assert nodes == {};
    } else {
      var last := |order| - 1;
      var n := order[last];
      assert n in order;
      OrderingInit(order, nodes);
      OrderedShares(p, order[..last], nodes - {n}, x);
      SharesWithout(p, nodes, n, x);
      EndpointsNamedConcat(GlobalServices(p, order[..last]), EgressServices(p[n]), x);
      EgressNamed(p[n], x);
      ToLbConcat(EndpointsNamed(GlobalServices(p, order[..last]), x), EgressEndpoints(EndpointsNamed(p[n], x)));
    }
  }

  lemma {:induction false} GlobalNames(p: Provider, order: seq<string>)
    requires forall n :: n in order ==> n in p
    ensures forall h :: h in Names(GlobalServices(p, order)) <==>
              exists n, i :: n in order && 0 <= i < |p[n]| && p[n][i].name == h
  {
    if order != [] {
      var last := |order| - 1;
      GlobalNames(p, order[..last]);
      var a, b := GlobalServices(p, order[..last]), EgressServices(p[order[last]]);
      forall h ensures h in Names(a + b) <==> h in Names(a) || h in Names(b) { NamesConcat(a, b, h); }
      forall h ensures h in Names(b) <==> exists i :: 0 <= i < |p[order[last]]| && p[order[last]][i].name == h {
        if h in Names(b) { var i :| 0 <= i < |b| && b[i].name == h; assert p[order[last]][i].name == h; }
        if i :| 0 <= i < |p[order[last]]| && p[order[last]][i].name == h { assert b[i].name == h; }
      }
      forall n ensures n in order <==> n in order[..last] || n == order[last] { }
    }
  }

  lemma NamesConcat(a: seq<Service>, b: seq<Service>, h: string)
    ensures h in Names(a + b) <==> h in Names(a) || h in Names(b)
  {
    if h in Names(a) { var i :| 0 <= i < |a| && a[i].name == h; assert (a + b)[i].name == h; }
    if h in Names(b) { var i :| 0 <= i < |b| && b[i].name == h; assert (a + b)[|a| + i].name == h; }
  }

  lemma OrderedNames(p: Provider, order: seq<string>)
    requires Ordering(order, p.Keys)
    ensures Names(GlobalServices(p, order)) == AllNames(p)
  {
    GlobalNames(p, order);
  }

  lemma NewNodeOk(name: string)
    ensures NodeOk(NewNode(name))
  {
  }

  lemma GainsFresh(n: NodeState, m: NodeState, names: set<string>, x: string, eps: seq<Endpoint>)
    requires n.endpoints == map[] && Gains(n, m, names, x, eps)
    ensures m.endpoints.Keys == names && Lbs(m.endpoints, x) == ToLb(eps)
  {
  }

  lemma FreshServices(name: string, global: seq<Service>, x: string)
    ensures var m := AddServices(NewNode(name), global);
            && NodeOk(m) && m.endpoints.Keys == Names(global) && m.routes == map[] && m.name == name
            && Lbs(m.endpoints, x) == ToLb(EndpointsNamed(global, x))
  {
    NewNodeOk(name);
    AddServicesEffect(NewNode(name), global, x);
    GainsFresh(NewNode(name), AddServices(NewNode(name), global), Names(global), x, EndpointsNamed(global, x));
  }

  lemma SharedEndpoints(name: string, global: seq<Service>, route: string, vhosts: seq<VirtualHost>, x: string)
    ensures var m := Shared(name, global, route, vhosts);
            && NodeOk(m) && m.endpoints.Keys == Names(global) && m.routes.Keys == {route} && m.name == name
            && Lbs(m.endpoints, x) == ToLb(EndpointsNamed(global, x))
  {
    FreshServices(name, global, x);
    AddRouteEffect(AddServices(NewNode(name), global), route, vhosts);
  }

  lemma SidecarEndpoints(p: Provider, order: seq<string>, n: string, x: string)
    requires Ordering(order, p.Keys) && n in p
    ensures var m := NodeOf(p, order, n);
            && NodeOk(m) && m.name == n
            && m.endpoints.Keys == AllNames(p) + Names(Locals(p[n]))
            && Lbs(m.endpoints, x) ==
                 ToLb(EndpointsNamed(GlobalServices(p, order), x)) + ToLb(EndpointsNamed(Locals(p[n]), x))
  {
    var global, vhosts := GlobalServices(p, order), GlobalVHosts(p, order);
    SharedEndpoints(n, global, EGRESS_ROUTE, vhosts, x);
    AddLocalsEffect(Shared(n, global, EGRESS_ROUTE, vhosts), p[n], x);
    OrderedNames(p, order);
  }

  /** Conservation. Under any name x the sidecar of node n load-balances over exactly the provider's endpoints of
      service x on all nodes, moved to the ingress port, together with the endpoints, as they are, of those of
      its own services whose local name is x. Nothing is lost, doubled or invented, whatever the order. */
  lemma EndpointConservation(p: Provider, order: seq<string>, n: string, x: string)
    requires Ordering(order, p.Keys) && n in p
    ensures multiset(Lbs(NodeOf(p, order, n).endpoints, x)) ==
              Shares(p, p.Keys, x) + multiset(ToLb(EndpointsNamed(Locals(p[n]), x)))
  {
    SidecarEndpoints(p, order, n, x);
    OrderedShares(p, order, p.Keys, x);
  }

  /** The cluster of service c holds exactly c's endpoints, moved to the ingress port, if and only if no service of
      this node that has endpoints is called d with local_d == c. */
  lemma ServiceClusterExactly(p: Provider, order: seq<string>, n: string, c: string)
    requires Ordering(order, p.Keys) && n in p
    ensures multiset(Lbs(NodeOf(p, order, n).endpoints, c)) == Shares(p, p.Keys, c)
            <==> forall i :: 0 <= i < |p[n]| && p[n][i].endpoints != [] ==> LocalName(p[n][i].name) != c
  {
    EndpointConservation(p, order, n, c);
    NamedNonempty(Locals(p[n]), c);
    var own := EndpointsNamed(Locals(p[n]), c);
    assert |ToLb(own)| == |own|;
    assert |multiset(ToLb(own))| == |ToLb(own)|;
    if own == [] {
      forall i | 0 <= i < |p[n]| && p[n][i].endpoints != [] ensures LocalName(p[n][i].name) != c {
        assert Locals(p[n])[i].name == LocalName(p[n][i].name) && Locals(p[n])[i].endpoints == p[n][i].endpoints;
      }
      assert multiset(ToLb(own)) == multiset{};
    } else {
      var i :| 0 <= i < |Locals(p[n])| && Locals(p[n])[i].name == c && Locals(p[n])[i].endpoints != [];
      assert LocalName(p[n][i].name) == c && p[n][i].endpoints != [];
      assert |Shares(p, p.Keys, c) + multiset(ToLb(own))| == |Shares(p, p.Keys, c)| + |own|;
    }
  }

  lemma {:induction false} NamedNonempty(svcs: seq<Service>, x: string)
    ensures EndpointsNamed(svcs, x) != [] <==>
              exists i :: 0 <= i < |svcs| && svcs[i].name == x && svcs[i].endpoints != []
  {
    if svcs != [] {
      var last := |svcs| - 1;
      NamedNonempty(svcs[..last], x);
      if i :| 0 <= i < |svcs[..last]| && svcs[..last][i].name == x && svcs[..last][i].endpoints != [] {
        assert svcs[i].name == x && svcs[i].endpoints != [];
      }
      if i :| 0 <= i < |svcs| && svcs[i].name == x && svcs[i].endpoints != [] {
        if i < last { assert svcs[..last][i] == svcs[i]; }
      }
    }
  }

  lemma {:induction false} SharesEmpty(p: Provider, nodes: set<string>, x: string)
    requires nodes <= p.Keys
    ensures Shares(p, nodes, x) == multiset{}
            <==> forall n, i :: n in nodes && 0 <= i < |p[n]| && p[n][i].name == x ==> p[n][i].endpoints == []
    decreases nodes
  {
    if nodes != {} {
      var n :| n in nodes && Shares(p, nodes, x) == Share(p, n, x) + Shares(p, nodes - {n}, x);
      SharesEmpty(p, nodes - {n}, x);
      NamedNonempty(p[n], x);
      var own := EndpointsNamed(p[n], x);
      assert |ToLb(EgressEndpoints(own))| == |own|;
      assert |Share(p, n, x)| == |own|;
      assert |Shares(p, nodes, x)| == |own| + |Shares(p, nodes - {n}, x)|;
      assert Shares(p, nodes - {n}, x) == multiset{} <==> |Shares(p, nodes - {n}, x)| == 0;
      assert Shares(p, nodes, x) == multiset{} <==> |Shares(p, nodes, x)| == 0;
    }
  }

  /** The cluster local_d holds exactly this node's own endpoints of d, as they are, if and only if no service of
      the mesh that has endpoints is itself called local_d. */
  lemma LocalClusterExactly(p: Provider, order: seq<string>, n: string, d: string)
    requires Ordering(order, p.Keys) && n in p
    ensures multiset(Lbs(NodeOf(p, order, n).endpoints, LocalName(d))) == multiset(ToLb(EndpointsNamed(p[n], d)))
            <==> forall m, i :: m in p && 0 <= i < |p[m]| && p[m][i].name == LocalName(d) ==> p[m][i].endpoints == []
  {
    SharesEmpty(p, p.Keys, LocalName(d));
    EndpointConservation(p, order, n, LocalName(d));
    LocalNamed(p[n], d);
    var own := multiset(ToLb(EndpointsNamed(p[n], d)));
    var others := Shares(p, p.Keys, LocalName(d));
    assert |others + own| == |others| + |own|;
    assert others == multiset{} <==> |others| == 0;
  }

  /** The front proxy has exactly the services, moved to the ingress port. */
  lemma FrontConservation(p: Provider, order: seq<string>, x: string)
    requires Ordering(order, p.Keys)
    ensures multiset(Lbs(Front(p, order).endpoints, x)) == Shares(p, p.Keys, x)
    ensures NodeOk(Front(p, order)) && Front(p, order).endpoints.Keys == AllNames(p)
    ensures Front(p, order).routes.Keys == {INGRESS_ROUTE}
  {
    SharedEndpoints("ingress", GlobalServices(p, order), INGRESS_ROUTE, GlobalVHosts(p, order), x);
    OrderedShares(p, order, p.Keys, x);
    OrderedNames(p, order);
  }

  /** The first service of the list that has this name. */
  function FirstNamed(svcs: seq<Service>, x: string): (s: Option<Service>)
    ensures s.None? <==> forall i :: 0 <= i < |svcs| ==> svcs[i].name != x
    ensures s.Some? ==> exists i :: 0 <= i < |svcs| && svcs[i] == s.value && s.value.name == x &&
                                    forall j :: 0 <= j < i ==> svcs[j].name != x
  {
    if svcs == [] then None
    else
      var last := |svcs| - 1;
      var rest := FirstNamed(svcs[..last], x);
      if rest.Some? then
        assert exists i :: 0 <= i < last && svcs[..last][i] == rest.value && rest.value.name == x &&
                           forall j :: 0 <= j < i ==> svcs[..last][j].name != x;
        rest
      else if svcs[last].name == x then Some(svcs[last])
      else None
  }

  lemma {:induction false} FirstNamedConcat(a: seq<Service>, b: seq<Service>, x: string)
    ensures FirstNamed(a + b, x) == if FirstNamed(a, x).Some? then FirstNamed(a, x) else FirstNamed(b, x)
  {
    if b == [] {
      assert a + b == a;
    } else {
      var last := |b| - 1;
      FirstNamedConcat(a, b[..last], x);
      assert (a + b)[..|a + b| - 1] == a + b[..last] && (a + b)[|a + b| - 1] == b[last];
    }
  }

  function ClusterNamed(svcs: seq<Service>, x: string): Option<Resource> {
    var s := FirstNamed(svcs, x);
    if s.Some? then Some(ClusterFor(s.value)) else None
  }

  function ClusterAt(n: NodeState, x: string): Option<Resource> {
    if x in n.clusters then Some(n.clusters[x]) else None
  }

  function OrElse<T>(a: Option<T>, b: Option<T>): Option<T> { if a.Some? then a else b }

  /** Among services of one name the first one met fixes the cluster, unless there is one already. */
  lemma {:induction false} FirstFixesConfig(n: NodeState, svcs: seq<Service>, x: string)
    ensures ClusterAt(AddServices(n, svcs), x) == OrElse(ClusterAt(n, x), ClusterNamed(svcs, x))
  {
    if svcs != [] {
      var rest, s := svcs[..|svcs| - 1], svcs[|svcs| - 1];
      FirstFixesConfig(n, rest, x);
      PutClusterAt(AddServices(n, rest), s.name, ClusterFor(s), s.endpoints, x);
    }
  }

  lemma PutClusterAt(n: NodeState, name: string, c: Resource, eps: seq<Endpoint>, x: string)
    ensures ClusterAt(PutCluster(n, name, c, eps), x) ==
              OrElse(ClusterAt(n, x), if name == x then Some(c) else None)
  {
  }

  /** The same for the node's own services. */
  lemma {:induction false} LocalsFixConfig(n: NodeState, svcs: seq<Service>, x: string)
    requires NodeOk(n)
    ensures NodeOk(AddLocals(n, svcs))
    ensures ClusterAt(AddLocals(n, svcs), x) == OrElse(ClusterAt(n, x), ClusterNamed(Locals(svcs), x))
  {
    if svcs != [] {
      var rest, s := svcs[..|svcs| - 1], svcs[|svcs| - 1];
      LocalsFixConfig(n, rest, x);
      LocalFixesConfig(AddLocals(n, rest), s, x);
      LocalsLast(svcs);
    }
  }

  lemma LocalFixesConfig(n: NodeState, s: Service, x: string)
    requires NodeOk(n)
    ensures NodeOk(AddLocal(n, s))
    ensures var l := Service(LocalName(s.name), s.endpoints);
            ClusterAt(AddLocal(n, s), x) == OrElse(ClusterAt(n, x), if l.name == x then Some(ClusterFor(l)) else None)
  {
    var l := Service(LocalName(s.name), s.endpoints);
    AddServiceEffect(n, l, x);
    AddRouteEffect(AddService(n, l), INGRESS_ROUTE, [VHost(s.name, LocalName(s.name))]);
    PutClusterAt(n, l.name, ClusterFor(l), l.endpoints, x);
  }

  /** All services that a sidecar has clusters for, in the order in which transform meets them. */
  function MetServices(p: Provider, order: seq<string>, n: string): seq<Service>
    requires (forall m :: m in order ==> m in p) && n in p
  {
    GlobalServices(p, order) + Locals(p[n])
  }

  /** The clusters of a sidecar: one for every name met, with the configuration of the first service of this name,
      even if a local cluster has the name of another service. */
  lemma SidecarClusterConfig(p: Provider, order: seq<string>, n: string, x: string)
    requires Ordering(order, p.Keys) && n in p
    ensures ClusterAt(NodeOf(p, order, n), x) == ClusterNamed(MetServices(p, order, n), x)
  {
    var global, vhosts := GlobalServices(p, order), GlobalVHosts(p, order);
    var m := AddServices(NewNode(n), global);
    FirstFixesConfig(NewNode(n), global, x);
    NewNodeOk(n);
    AddServicesEffect(NewNode(n), global, "");
    AddRouteEffect(m, EGRESS_ROUTE, vhosts);
    LocalsFixConfig(Shared(n, global, EGRESS_ROUTE, vhosts), p[n], x);
    FirstNamedConcat(global, Locals(p[n]), x);
  }

  /******* Virtual hosts *******/

  ghost predicate HasName(vs: seq<VirtualHost>, x: string) {
    exists i :: 0 <= i < |vs| && vs[i].name == x
  }

  ghost predicate UniqueNames(vs: seq<VirtualHost>) {
    forall i, j :: 0 <= i < j < |vs| ==> vs[i].name != vs[j].name
  }

  /** The virtual hosts without those whose name occurred before. */
  ghost function FirstHosts(vs: seq<VirtualHost>): seq<VirtualHost> {
    if vs == [] then []
    else
      var rest, v := FirstHosts(vs[..|vs| - 1]), vs[|vs| - 1];
      if HasName(rest, v.name) then rest else rest + [v]
  }

  lemma FirstHostsMore(vs: seq<VirtualHost>, v: VirtualHost)
    ensures FirstHosts(vs + [v]) ==
              if HasName(FirstHosts(vs), v.name) then FirstHosts(vs) else FirstHosts(vs) + [v]
  {
    assert (vs + [v])[..|vs|] == vs;
  }

  lemma HasNameMore(vs: seq<VirtualHost>, v: VirtualHost, x: string)
    ensures HasName(vs + [v], x) <==> HasName(vs, x) || v.name == x
  {
    if HasName(vs, x) {
      var i :| 0 <= i < |vs| && vs[i].name == x;
      assert (vs + [v])[i].name == x;
    }
    if v.name == x { assert (vs + [v])[|vs|].name == x; }
    if HasName(vs + [v], x) {
      var i :| 0 <= i < |vs + [v]| && (vs + [v])[i].name == x;
      assert i < |vs| ==> vs[i].name == x;
    }
  }

  lemma {:induction false} FirstHostsNames(vs: seq<VirtualHost>, x: string)
    ensures HasName(FirstHosts(vs), x) <==> HasName(vs, x)
  {
    if vs != [] {
      var rest, v := vs[..|vs| - 1], vs[|vs| - 1];
      FirstHostsNames(rest, x);
      HasNameMore(FirstHosts(rest), v, x);
      HasNameMore(rest, v, x);
      assert vs == rest + [v];
    }
  }

  /** out picks from vs, in their order, exactly those that are the first of their name. */
  ghost predicate Picks(vs: seq<VirtualHost>, out: seq<VirtualHost>, pick: seq<nat>) {
    && |out| == |pick|
    && (forall k :: 0 <= k < |pick| ==> pick[k] < |vs| && out[k] == vs[pick[k]])
    && (forall k, l :: 0 <= k < l < |pick| ==> pick[k] < pick[l])
    && (forall j :: 0 <= j < |vs| ==> (j in pick <==> !HasName(vs[..j], vs[j].name)))
  }

  /** FirstHosts keeps the order, and a virtual host exactly when it is the first of its name. */
  lemma {:induction false} FirstHostsPicks(vs: seq<VirtualHost>) returns (pick: seq<nat>)
    ensures Picks(vs, FirstHosts(vs), pick)
  {
    if vs == [] {
      pick := [];
    } else {
      var rest, v := vs[..|vs| - 1], vs[|vs| - 1];
      var before := FirstHostsPicks(rest);
      FirstHostsNames(rest, v.name);
      assert vs == rest + [v];
      PicksMore(rest, FirstHosts(rest), before, v);
      pick := if HasName(rest, v.name) then before else before + [|rest|];
    }
  }

  lemma PicksMore(vs: seq<VirtualHost>, out: seq<VirtualHost>, pick: seq<nat>, v: VirtualHost)
    requires Picks(vs, out, pick)
    ensures HasName(vs, v.name) ==> Picks(vs + [v], out, pick)
    ensures !HasName(vs, v.name) ==> Picks(vs + [v], out + [v], pick + [|vs|])
  {
    var vs', pick' := vs + [v], if HasName(vs, v.name) then pick else pick + [|vs|];
    assert vs'[..|vs|] == vs;
    forall j | 0 <= j < |vs'| ensures j in pick' <==> !HasName(vs'[..j], vs'[j].name) {
      assert |vs| !in pick;
      if j < |vs| {
        assert vs'[..j] == vs[..j] && vs'[j] == vs[j];
        assert j in pick <==> !HasName(vs[..j], vs[j].name);
      }
    }
    forall k | 0 <= k < |pick| ensures out[k] == vs'[pick[k]] { assert vs'[pick[k]] == vs[pick[k]]; }
  }

  /** vhostExists is the set of names of the virtual hosts in the route, and no name repeats. */
  ghost predicate InSync(n: NodeState, route: string) {
    && (forall x :: x in Seen(n, route) <==> HasName(VHosts(n.routes, route), x))
    && UniqueNames(VHosts(n.routes, route))
  }

  /** One virtual host more: kept exactly when its name is new, at the end. */
  lemma AddVHostFirst(n: NodeState, route: string, v: VirtualHost)
    requires NodeOk(n) && route in n.routes && InSync(n, route)
    ensures var out := VHosts(AddVHost(n, route, v).routes, route);
            var had := VHosts(n.routes, route);
            && InSync(AddVHost(n, route, v), route)
            && out == (if HasName(had, v.name) then had else had + [v])
  {
    var m := AddVHost(n, route, v);
    var had, out := VHosts(n.routes, route), VHosts(m.routes, route);
    if v.name !in Seen(n, route) {
      assert out == had + [v];
      forall x ensures x in Seen(m, route) <==> HasName(out, x) { HasNameMore(had, v, x); }
    }
  }

  /** The route has been given these virtual hosts, one after the other. */
  ghost predicate Given(n: NodeState, route: string, vs: seq<VirtualHost>) {
    NodeOk(n) && InSync(n, route) && VHosts(n.routes, route) == FirstHosts(vs)
  }

  lemma GivenOne(n: NodeState, route: string, had: seq<VirtualHost>, v: VirtualHost)
    requires Given(n, route, had) && route in n.routes
    ensures Given(AddVHost(n, route, v), route, had + [v]) && route in AddVHost(n, route, v).routes
  {
    AddVHostFirst(n, route, v);
    AddOneVHost(n, route, v);
    FirstHostsMore(had, v);
  }

  lemma {:induction false} GivenMore(n: NodeState, route: string, had: seq<VirtualHost>, vs: seq<VirtualHost>)
    requires Given(n, route, had) && route in n.routes
    ensures Given(AddVHosts(n, route, vs), route, had + vs) && route in AddVHosts(n, route, vs).routes
  {
    if vs == [] {
      assert had + vs == had;
    } else {
      var rest, v := vs[..|vs| - 1], vs[|vs| - 1];
      GivenMore(n, route, had, rest);
      GivenOne(AddVHosts(n, route, rest), route, had + rest, v);
      assert had + vs == had + rest + [v];
    }
  }

  /** One call of AddRoute. */
  lemma AddRouteGives(n: NodeState, route: string, had: seq<VirtualHost>, vs: seq<VirtualHost>)
    requires Given(n, route, had)
    ensures Given(AddRoute(n, route, vs), route, had + vs) && route in AddRoute(n, route, vs).routes
  {
    var start := if route in n.routes then n else n.(routes := n.routes[route := RouteConfiguration(route, [])]);
    assert Given(start, route, had);
    GivenMore(start, route, had, vs);
  }

  type RouteCall = (string, seq<VirtualHost>)

  /** Any sequence of calls of AddRoute. */
  function AddRoutes(n: NodeState, calls: seq<RouteCall>): NodeState {
    if calls == [] then n
    else AddRoute(AddRoutes(n, calls[..|calls| - 1]), calls[|calls| - 1].0, calls[|calls| - 1].1)
  }

  /** All virtual hosts that the calls give to one route, in order. */
  function ListFor(calls: seq<RouteCall>, route: string): seq<VirtualHost> {
    if calls == [] then []
    else
      var call := calls[|calls| - 1];
      ListFor(calls[..|calls| - 1], route) + (if call.0 == route then call.1 else [])
  }

  lemma GivenElsewhere(n: NodeState, m: NodeState, other: string, route: string, vs: seq<VirtualHost>)
    requires Given(n, route, vs) && OnlyRoute(n, m, other) && other != route
    ensures Given(m, route, vs) && (route in m.routes <==> route in n.routes)
  {
  }

  /** For any sequence of calls, from a new node, and for every route: it exists exactly if some call is for it;
      vhostExists is exactly the set of its names; no name repeats; and it holds exactly the first virtual host of
      each name, in the order in which they came, over all calls for this route. */
  lemma {:induction false} AddRouteKeepsFirsts(name: string, calls: seq<RouteCall>, route: string)
    ensures Given(AddRoutes(NewNode(name), calls), route, ListFor(calls, route))
    ensures route in AddRoutes(NewNode(name), calls).routes <==> HasCall(calls, route)
  {
    if calls != [] {
      var rest, call := calls[..|calls| - 1], calls[|calls| - 1];
      AddRouteKeepsFirsts(name, rest, route);
      CallsMore(calls, route);
      CallGives(AddRoutes(NewNode(name), rest), call, route, ListFor(rest, route));
    }
  }

  lemma CallGives(n: NodeState, call: RouteCall, route: string, had: seq<VirtualHost>)
    requires Given(n, route, had)
    ensures Given(AddRoute(n, call.0, call.1), route, had + (if call.0 == route then call.1 else []))
    ensures route in AddRoute(n, call.0, call.1).routes <==> route in n.routes || call.0 == route
  {
    if call.0 == route {
      AddRouteGives(n, route, had, call.1);
    } else {
      AddRouteEffect(n, call.0, call.1);
      GivenElsewhere(n, AddRoute(n, call.0, call.1), call.0, route, had);
      assert had + [] == had;
    }
  }

  ghost predicate HasCall(calls: seq<RouteCall>, route: string) {
    exists i :: 0 <= i < |calls| && calls[i].0 == route
  }

  lemma CallsMore(calls: seq<RouteCall>, route: string)
    requires calls != []
    ensures HasCall(calls, route) <==> HasCall(calls[..|calls| - 1], route) || calls[|calls| - 1].0 == route
  {
    var rest := calls[..|calls| - 1];
    if HasCall(calls, route) {
      var i :| 0 <= i < |calls| && calls[i].0 == route;
      assert i < |rest| ==> rest[i].0 == route;
    }
    if HasCall(rest, route) {
      var i :| 0 <= i < |rest| && rest[i].0 == route;
      assert calls[i].0 == route;
    }
  }

  /******* What a route serves *******/

  function Target(h: string, local: bool): string { if local then LocalName(h) else h }

  /** The route has one virtual host for each of these services, to its cluster, and nothing else. */
  ghost predicate Serves(vs: seq<VirtualHost>, hosts: set<string>, local: bool) {
    && (forall h :: h in hosts ==> VHost(h, Target(h, local)) in vs)
    && (forall i :: 0 <= i < |vs| ==> |vs[i].domains| > 0 && vs[i].domains[0] in hosts &&
                                      vs[i] == VHost(vs[i].domains[0], Target(vs[i].domains[0], local)))
    && UniqueNames(vs)
  }

  lemma VHostInjective(g: string, h: string)
    ensures VHost(g, "").name == VHost(h, "").name ==> g == h
    ensures PortDomain(g) == PortDomain(h) ==> g == h
  {
    assert ("vhost_" + g)[6..] == g && ("vhost_" + h)[6..] == h;
    assert PortDomain(g)[..|PortDomain(g)| - 5] == g && PortDomain(h)[..|PortDomain(h)| - 5] == h;
  }

  function VHostList(hosts: seq<string>, local: bool): seq<VirtualHost> {
    seq(|hosts|, i requires 0 <= i < |hosts| => VHost(hosts[i], Target(hosts[i], local)))
  }

  /** The virtual hosts of a route for services of these names, met in this order. */
  ghost function RouteOf(names: seq<string>, local: bool): seq<VirtualHost> {
    FirstHosts(VHostList(names, local))
  }

  ghost function Elements(hosts: seq<string>): set<string> { set h | h in hosts }

  /** The list has a virtual host of this name exactly when it has the host. */
  lemma ListKnows(hosts: seq<string>, local: bool, h: string)
    ensures HasName(VHostList(hosts, local), VHost(h, "").name) <==> h in hosts
  {
    var vs := VHostList(hosts, local);
    if i :| 0 <= i < |vs| && vs[i].name == VHost(h, "").name { VHostInjective(hosts[i], h); }
    if h in hosts {
      var i :| 0 <= i < |hosts| && hosts[i] == h;
      assert vs[i].name == VHost(h, "").name;
    }
  }

  lemma RouteOfMore(names: seq<string>, local: bool, h: string)
    ensures RouteOf(names + [h], local) ==
              if h in names then RouteOf(names, local) else RouteOf(names, local) + [VHost(h, Target(h, local))]
  {
    assert VHostList(names + [h], local) == VHostList(names, local) + [VHost(h, Target(h, local))];
    FirstHostsMore(VHostList(names, local), VHost(h, Target(h, local)));
    FirstHostsNames(VHostList(names, local), VHost(h, "").name);
    ListKnows(names, local, h);
  }

  lemma ServesMore(vs: seq<VirtualHost>, hosts: set<string>, local: bool, h: string)
    requires Serves(vs, hosts, local) && h !in hosts
    ensures Serves(vs + [VHost(h, Target(h, local))], hosts + {h}, local)
  {
    var v := VHost(h, Target(h, local));
    var out := vs + [v];
    assert out[|vs|] == v;
    forall i | 0 <= i < |vs| ensures vs[i].name != v.name { VHostInjective(vs[i].domains[0], h); }
  }

  lemma {:induction false} RouteServes(names: seq<string>, local: bool)
    ensures Serves(RouteOf(names, local), Elements(names), local)
  {
    if names != [] {
      var rest, h := names[..|names| - 1], names[|names| - 1];
      RouteServes(rest, local);
      assert names == rest + [h];
      RouteServesMore(rest, local, h);
    }
  }

  lemma RouteServesMore(names: seq<string>, local: bool, h: string)
    requires Serves(RouteOf(names, local), Elements(names), local)
    ensures Serves(RouteOf(names + [h], local), Elements(names + [h]), local)
  {
    RouteOfMore(names, local, h);
    ElementsMore(names, h);
    if h !in names { ServesMore(RouteOf(names, local), Elements(names), local, h); }
  }

  lemma ElementsMore(names: seq<string>, h: string)
    ensures Elements(names + [h]) == Elements(names) + {h}
    ensures h in names ==> Elements(names + [h]) == Elements(names)
  {
  }

  /******* The routes of the mesh *******/

  function NameSeq(svcs: seq<Service>): seq<string> {
    seq(|svcs|, i requires 0 <= i < |svcs| => svcs[i].name)
  }

  lemma NameSeqConcat(a: seq<Service>, b: seq<Service>)
    ensures NameSeq(a + b) == NameSeq(a) + NameSeq(b)
  {
  }

  lemma VHostListConcat(a: seq<string>, b: seq<string>, local: bool)
    ensures VHostList(a + b, local) == VHostList(a, local) + VHostList(b, local)
  {
  }

  lemma VHostsForNames(svcs: seq<Service>)
    ensures VHostsFor(svcs) == VHostList(NameSeq(EgressServices(svcs)), false)
  {
    assert NameSeq(EgressServices(svcs)) == NameSeq(svcs);
  }

  lemma {:induction false} GlobalVHostList(p: Provider, order: seq<string>)
    requires forall n :: n in order ==> n in p
    ensures GlobalVHosts(p, order) == VHostList(NameSeq(GlobalServices(p, order)), false)
  {
    if order != [] {
      var rest, n := order[..|order| - 1], order[|order| - 1];
      GlobalVHostList(p, rest);
      VHostsForNames(p[n]);
      NameSeqConcat(GlobalServices(p, rest), EgressServices(p[n]));
      VHostListConcat(NameSeq(GlobalServices(p, rest)), NameSeq(EgressServices(p[n])), false);
    }
  }

  lemma NameSeqElements(svcs: seq<Service>)
    ensures Elements(NameSeq(svcs)) == Names(svcs)
  {
    forall h ensures h in Elements(NameSeq(svcs)) <==> h in Names(svcs) {
      if h in NameSeq(svcs) { var i :| 0 <= i < |svcs| && NameSeq(svcs)[i] == h; assert svcs[i].name == h; }
      if h in Names(svcs) { var i :| 0 <= i < |svcs| && svcs[i].name == h; assert NameSeq(svcs)[i] == h; }
    }
  }

  lemma SharedRoute(p: Provider, order: seq<string>, name: string, route: string)
    requires Ordering(order, p.Keys)
    ensures VHosts(Shared(name, GlobalServices(p, order), route, GlobalVHosts(p, order)).routes, route) ==
              RouteOf(NameSeq(GlobalServices(p, order)), false)
  {
    var global, vhosts := GlobalServices(p, order), GlobalVHosts(p, order);
    var n := AddServices(NewNode(name), global);
    NewNodeOk(name);
    AddServicesEffect(NewNode(name), global, "");
    AddRouteGives(n, route, [], vhosts);
    GlobalVHostList(p, order);
    assert [] + vhosts == vhosts;
  }

  /** The ingress route of a node, after its own services. */
  lemma {:induction false} LocalRoute(n: NodeState, svcs: seq<Service>)
    requires Given(n, INGRESS_ROUTE, [])
    ensures Given(AddLocals(n, svcs), INGRESS_ROUTE, VHostList(NameSeq(svcs), true))
  {
    if svcs != [] {
      var rest, s := svcs[..|svcs| - 1], svcs[|svcs| - 1];
      LocalRoute(n, rest);
      LocalRouteMore(AddLocals(n, rest), s, VHostList(NameSeq(rest), true));
      LocalHosts(svcs);
    }
  }

  lemma LocalHosts(svcs: seq<Service>)
    requires svcs != []
    ensures var rest, s := svcs[..|svcs| - 1], svcs[|svcs| - 1];
            VHostList(NameSeq(svcs), true) == VHostList(NameSeq(rest), true) + [VHost(s.name, LocalName(s.name))]
  {
  }

  lemma LocalRouteMore(n: NodeState, s: Service, had: seq<VirtualHost>)
    requires Given(n, INGRESS_ROUTE, had)
    ensures Given(AddLocal(n, s), INGRESS_ROUTE, had + [VHost(s.name, LocalName(s.name))])
  {
    var m := AddService(n, Service(LocalName(s.name), s.endpoints));
    AddServiceEffect(n, Service(LocalName(s.name), s.endpoints), "");
    GivenFrame(n, m, INGRESS_ROUTE, had);
    AddRouteGives(m, INGRESS_ROUTE, had, [VHost(s.name, LocalName(s.name))]);
  }

  lemma GivenFrame(n: NodeState, m: NodeState, route: string, vs: seq<VirtualHost>)
    requires Given(n, route, vs) && SameRoutes(n, m) && NodeOk(m)
    ensures Given(m, route, vs)
  {
    assert VHosts(m.routes, route) == VHosts(n.routes, route) && Seen(m, route) == Seen(n, route);
  }

  lemma RouteNamesDiffer()
    ensures EGRESS_ROUTE != INGRESS_ROUTE
  {
    assert |EGRESS_ROUTE| == 12 && |INGRESS_ROUTE| == 13;
  }

  /** The names of the services in the order in which transform meets them. */
  function MetNames(p: Provider, order: seq<string>): seq<string>
    requires forall n :: n in order ==> n in p
  {
    NameSeq(GlobalServices(p, order))
  }

  lemma MetNamesElements(p: Provider, order: seq<string>)
    requires Ordering(order, p.Keys)
    ensures Elements(MetNames(p, order)) == AllNames(p)
  {
    NameSeqElements(GlobalServices(p, order));
    OrderedNames(p, order);
  }

  /** What a sidecar's routes are: the egress route always, the ingress route if the node has services. */
  lemma SidecarRoutes(p: Provider, order: seq<string>, n: string)
    requires Ordering(order, p.Keys) && n in p
    ensures NodeOk(NodeOf(p, order, n))
    ensures NodeOf(p, order, n).routes.Keys == {EGRESS_ROUTE} + (if p[n] == [] then {} else {INGRESS_ROUTE})
    ensures VHosts(NodeOf(p, order, n).routes, EGRESS_ROUTE) == RouteOf(MetNames(p, order), false)
    ensures VHosts(NodeOf(p, order, n).routes, INGRESS_ROUTE) == RouteOf(NameSeq(p[n]), true)
  {
    RouteNamesDiffer();
    var global, vhosts := GlobalServices(p, order), GlobalVHosts(p, order);
    var shared := Shared(n, global, EGRESS_ROUTE, vhosts);
    SharedEndpoints(n, global, EGRESS_ROUTE, vhosts, "");
    SharedRoute(p, order, n, EGRESS_ROUTE);
    SharedSeesNothing(n, global, vhosts);
    AddLocalsRoutes(shared, p[n], EGRESS_ROUTE);
    LocalRoute(shared, p[n]);
  }

  /** The egress route of every sidecar serves all services of the mesh, at their own clusters, in the order in which
      they were first met. */
  lemma EgressServesAll(p: Provider, order: seq<string>, n: string)
    requires Ordering(order, p.Keys) && n in p
    ensures Serves(VHosts(NodeOf(p, order, n).routes, EGRESS_ROUTE), AllNames(p), false)
    ensures VHosts(NodeOf(p, order, n).routes, EGRESS_ROUTE) == RouteOf(MetNames(p, order), false)
  {
    SidecarRoutes(p, order, n);
    RouteServes(MetNames(p, order), false);
    MetNamesElements(p, order);
  }

  /** The ingress route of a sidecar exists if its node has services, and then serves these, at their local clusters. */
  lemma IngressServesOwn(p: Provider, order: seq<string>, n: string)
    requires Ordering(order, p.Keys) && n in p
    ensures NodeOf(p, order, n).routes.Keys == {EGRESS_ROUTE} + (if p[n] == [] then {} else {INGRESS_ROUTE})
    ensures Serves(VHosts(NodeOf(p, order, n).routes, INGRESS_ROUTE), Names(p[n]), true)
    ensures VHosts(NodeOf(p, order, n).routes, INGRESS_ROUTE) == RouteOf(NameSeq(p[n]), true)
  {
    SidecarRoutes(p, order, n);
    RouteServes(NameSeq(p[n]), true);
    NameSeqElements(p[n]);
  }

  lemma SharedSeesNothing(n: string, global: seq<Service>, vhosts: seq<VirtualHost>)
    ensures Seen(Shared(n, global, EGRESS_ROUTE, vhosts), INGRESS_ROUTE) == {}
  {
    RouteNamesDiffer();
    NewNodeOk(n);
    AddServicesEffect(NewNode(n), global, "");
    AddRouteEffect(AddServices(NewNode(n), global), EGRESS_ROUTE, vhosts);
  }

  /** The ingress route of the front proxy serves all services of the mesh. */
  lemma FrontServesAll(p: Provider, order: seq<string>)
    requires Ordering(order, p.Keys)
    ensures Serves(VHosts(Front(p, order).routes, INGRESS_ROUTE), AllNames(p), false)
    ensures VHosts(Front(p, order).routes, INGRESS_ROUTE) == RouteOf(MetNames(p, order), false)
  {
    SharedRoute(p, order, "ingress", INGRESS_ROUTE);
    RouteServes(MetNames(p, order), false);
    MetNamesElements(p, order);
  }

  /******* Looking up a host *******/

  /** No service is called like another one with the ingress port appended. */
  ghost predicate NoClash(hosts: set<string>) {
    forall g, h :: g in hosts && h in hosts ==> h != PortDomain(g)
  }

  /** A proxy refuses a route configuration in which a domain occurs twice. */
  ghost predicate DomainsDistinct(vs: seq<VirtualHost>) {
    forall i, a, j, b | 0 <= i < |vs| && 0 <= a < |vs[i].domains| && 0 <= j < |vs| && 0 <= b < |vs[j].domains| ::
      vs[i].domains[a] == vs[j].domains[b] ==> i == j && a == b
  }

  lemma DomainsDistinctExactly(vs: seq<VirtualHost>, hosts: set<string>, local: bool)
    requires Serves(vs, hosts, local)
    ensures DomainsDistinct(vs) <==> NoClash(hosts)
  {
    if DomainsDistinct(vs) {
      forall g, h | g in hosts && h in hosts ensures h != PortDomain(g) {
        var i :| 0 <= i < |vs| && vs[i] == VHost(g, Target(g, local));
        var j :| 0 <= j < |vs| && vs[j] == VHost(h, Target(h, local));
        assert vs[i].domains[1] == PortDomain(g) && vs[j].domains[0] == h;
      }
    }
    if NoClash(hosts) {
      forall i, a, j, b | 0 <= i < |vs| && 0 <= a < |vs[i].domains| && 0 <= j < |vs| && 0 <= b < |vs[j].domains| &&
        vs[i].domains[a] == vs[j].domains[b]
        ensures i == j && a == b
      {
        SameDomain(vs, hosts, local, i, a, j, b);
      }
    }
  }

  lemma SameDomain(vs: seq<VirtualHost>, hosts: set<string>, local: bool, i: nat, a: nat, j: nat, b: nat)
    requires Serves(vs, hosts, local) && NoClash(hosts)
    requires i < |vs| && j < |vs| && a < |vs[i].domains| && b < |vs[j].domains| && vs[i].domains[a] == vs[j].domains[b]
    ensures i == j && a == b
  {
    var g, h := vs[i].domains[0], vs[j].domains[0];
    assert vs[i].domains == [g, PortDomain(g)] && vs[j].domains == [h, PortDomain(h)];
    assert PortDomain(g) != h && PortDomain(h) != g;
    VHostInjective(g, h);
    assert g == h;
    assert vs[i].name == vs[j].name;
  }

  /** The cluster that a route sends a host to. */
  function Lookup(vs: seq<VirtualHost>, host: string): Option<string> {
    if vs == [] then None else if host in vs[0].domains then Some(vs[0].cluster) else Lookup(vs[1..], host)
  }

  /** The two domains of a service. */
  predicate Matches(name: string, host: string) { host == name || host == PortDomain(name) }

  /** g is the first of the names that answers to the host. */
  ghost predicate FirstMatch(names: seq<string>, host: string, g: string) {
    exists j :: 0 <= j < |names| && names[j] == g && Matches(g, host) &&
                forall i :: 0 <= i < j ==> !Matches(names[i], host)
  }

  lemma {:induction false} LookupMore(vs: seq<VirtualHost>, v: VirtualHost, host: string)
    ensures Lookup(vs + [v], host) ==
              if Lookup(vs, host).Some? then Lookup(vs, host) else if host in v.domains then Some(v.cluster) else None
  {
    if vs == [] {
      assert [] + [v] == [v];
    } else {
      LookupMore(vs[1..], v, host);
      assert (vs + [v])[1..] == vs[1..] + [v];
    }
  }

  /** The first of the names that answers to the host, computed. */
  function Answering(names: seq<string>, host: string): (g: Option<string>)
    ensures g.None? <==> forall i :: 0 <= i < |names| ==> !Matches(names[i], host)
    ensures g.Some? ==> FirstMatch(names, host, g.value)
  {
    if names == [] then None
    else
      var last := |names| - 1;
      var r := Answering(names[..last], host);
      if r.Some? then
        assert exists j :: 0 <= j < last && names[..last][j] == r.value && Matches(r.value, host) &&
                           forall i :: 0 <= i < j ==> !Matches(names[..last][i], host);
        r
      else if Matches(names[last], host) then Some(names[last])
      else None
  }

  lemma {:induction false} LookupAnswering(names: seq<string>, local: bool, host: string)
    ensures var g := Answering(names, host);
            Lookup(RouteOf(names, local), host) == if g.Some? then Some(Target(g.value, local)) else None
  {
    if names != [] {
      var rest, h := names[..|names| - 1], names[|names| - 1];
      LookupAnswering(rest, local, host);
      RouteOfMore(rest, local, h);
      assert names == rest + [h];
      AnsweringMore(rest, h, host);
      if h !in rest { LookupMore(RouteOf(rest, local), VHost(h, Target(h, local)), host); }
    }
  }

  lemma AnsweringMore(names: seq<string>, h: string, host: string)
    ensures Answering(names + [h], host) ==
              if Answering(names, host).Some? then Answering(names, host)
              else if Matches(h, host) then Some(h) else None
    ensures h in names && Matches(h, host) ==> Answering(names, host).Some?
    ensures host in VHost(h, "").domains <==> Matches(h, host)
  {
    assert (names + [h])[..|names|] == names;
  }

  lemma FirstMatchUnique(names: seq<string>, host: string, g: string, h: string)
    requires FirstMatch(names, host, g) && FirstMatch(names, host, h)
    ensures g == h
  {
    var i :| 0 <= i < |names| && names[i] == g && Matches(g, host) &&
             forall k :: 0 <= k < i ==> !Matches(names[k], host);
    var j :| 0 <= j < |names| && names[j] == h && Matches(h, host) &&
             forall k :: 0 <= k < j ==> !Matches(names[k], host);
  }

  /** Where a route sends a host, for any list of services and any host: to the cluster of g exactly when g is the
      first that answers to it, and nowhere exactly when none does. */
  lemma RouteSendsExactly(names: seq<string>, local: bool, host: string, g: string)
    ensures var vs := RouteOf(names, local);
            && (Lookup(vs, host) == Some(Target(g, local)) <==> FirstMatch(names, host, g))
            && (Lookup(vs, host) == None <==> forall i :: 0 <= i < |names| ==> !Matches(names[i], host))
  {
    LookupAnswering(names, local, host);
    var a := Answering(names, host);
    if a.Some? && Target(a.value, local) == Target(g, local) && local { LocalNameInjective(a.value, g); }
    if FirstMatch(names, host, g) {
      var j :| 0 <= j < |names| && names[j] == g && Matches(g, host);
      FirstMatchUnique(names, host, g, a.value);
    }
  }

  /** No other service answers to the host, so the order does not matter. */
  lemma OnlyMatchIsFirst(names: seq<string>, host: string, g: string)
    requires g in names && Matches(g, host) && forall h :: h in names && Matches(h, host) ==> h == g
    ensures FirstMatch(names, host, g)
  {
    var i :| 0 <= i < |names| && names[i] == g;
    assert Matches(names[i], host);
    var a := Answering(names, host).value;
    assert FirstMatch(names, host, a);
    assert a in names && Matches(a, host);
  }

  /******* Two hops *******/

  lemma {:induction false} NamedMember(svcs: seq<Service>, i: nat, e: Endpoint)
    requires i < |svcs| && e in svcs[i].endpoints
    ensures e in EndpointsNamed(svcs, svcs[i].name)
  {
    var last := |svcs| - 1;
    if i < last { NamedMember(svcs[..last], i, e); }
  }

  lemma ToLbMember(eps: seq<Endpoint>, e: Endpoint)
    requires e in eps
    ensures ToLbEndpoint(e) in ToLb(eps)
  {
    var i :| 0 <= i < |eps| && eps[i] == e;
    assert ToLb(eps)[i] == ToLbEndpoint(e);
  }

  lemma ShareMember(p: Provider, m: string, i: nat, e: Endpoint)
    requires m in p && i < |p[m]| && e in p[m][i].endpoints
    ensures ToLbEndpoint(EgressEndpoint(e)) in Shares(p, p.Keys, p[m][i].name)
  {
    var x := p[m][i].name;
    NamedMember(p[m], i, e);
    var eps := EndpointsNamed(p[m], x);
    var j :| 0 <= j < |eps| && eps[j] == e;
    assert EgressEndpoints(eps)[j] == EgressEndpoint(e);
    ToLbMember(EgressEndpoints(eps), EgressEndpoint(e));
    SharesWithout(p, p.Keys, m, x);
  }

  /** No service name is another's with the ingress port appended. */
  ghost predicate Sound(p: Provider) { NoClash(AllNames(p)) }

  /** First hop, the route: every sidecar's egress route, and the front proxy's ingress route, send host h to the
      cluster of h exactly when h is met before any service g with h == g + ":4100"; so always if there is none. */
  lemma FirstHopRoute(p: Provider, order: seq<string>, n: string, h: string)
    requires Ordering(order, p.Keys) && n in p && h in AllNames(p)
    ensures Lookup(VHosts(NodeOf(p, order, n).routes, EGRESS_ROUTE), h) == Some(h) <==>
              FirstMatch(MetNames(p, order), h, h)
    ensures Lookup(VHosts(Front(p, order).routes, INGRESS_ROUTE), h) == Some(h) <==>
              FirstMatch(MetNames(p, order), h, h)
    ensures (forall g :: g in AllNames(p) ==> h != PortDomain(g)) ==> FirstMatch(MetNames(p, order), h, h)
  {
    EgressServesAll(p, order, n);
    FrontServesAll(p, order);
    RouteSendsExactly(MetNames(p, order), false, h, h);
    MetNamesElements(p, order);
    assert h in Elements(MetNames(p, order));
    if forall g :: g in AllNames(p) ==> h != PortDomain(g) {
      assert forall g :: g in MetNames(p, order) ==> g in Elements(MetNames(p, order));
      OnlyMatchIsFirst(MetNames(p, order), h, h);
    }
  }

  lemma {:induction false} AnsweringConcat(a: seq<string>, b: seq<string>, host: string)
    ensures Answering(a + b, host) == if Answering(a, host).Some? then Answering(a, host) else Answering(b, host)
  {
    if b == [] {
      assert a + b == a;
    } else {
      var last := |b| - 1;
      AnsweringConcat(a, b[..last], host);
      assert (a + b)[..|a + b| - 1] == a + b[..last];
      assert (a + b)[|a + b| - 1] == b[last];
    }
  }

  /** On every node, any service g with h == g + ":4100" comes after one that is called h. */
  ghost predicate ComesFirst(p: Provider, h: string) {
    forall m, j :: m in p && 0 <= j < |p[m]| && PortDomain(p[m][j].name) == h ==> NamedBefore(p[m], j, h)
  }

  ghost predicate NamedBefore(svcs: seq<Service>, j: nat, h: string) {
    exists i :: 0 <= i < j && i < |svcs| && svcs[i].name == h
  }

  lemma MetNamesMore(p: Provider, order: seq<string>)
    requires order != [] && forall n :: n in order ==> n in p
    ensures MetNames(p, order) == MetNames(p, order[..|order| - 1]) + NameSeq(p[order[|order| - 1]])
  {
    var rest, n := order[..|order| - 1], order[|order| - 1];
    NameSeqConcat(GlobalServices(p, rest), EgressServices(p[n]));
    assert NameSeq(EgressServices(p[n])) == NameSeq(p[n]);
  }

  lemma {:induction false} MetNamesConcat(p: Provider, a: seq<string>, b: seq<string>)
    requires (forall n :: n in a ==> n in p) && (forall n :: n in b ==> n in p)
    ensures forall n :: n in a + b ==> n in p
    ensures MetNames(p, a + b) == MetNames(p, a) + MetNames(p, b)
  {
    if b == [] {
      assert a + b == a;
    } else {
      var rest, n := b[..|b| - 1], b[|b| - 1];
      MetNamesConcat(p, a, rest);
      MetNamesMore(p, b);
      assert a + b == (a + rest) + [n];
      assert ((a + rest) + [n])[..|a + rest|] == a + rest;
      MetNamesMore(p, (a + rest) + [n]);
      AppendAssoc(MetNames(p, a), MetNames(p, rest), NameSeq(p[n]));
    }
  }

  /** Whatever the order of the nodes, nothing but h itself answers to h first. */
  lemma {:induction false} FirstInEveryOrder(p: Provider, order: seq<string>, h: string)
    requires (forall n :: n in order ==> n in p) && ComesFirst(p, h)
    ensures Answering(MetNames(p, order), h).Some? ==> Answering(MetNames(p, order), h) == Some(h)
  {
    if order != [] {
      var rest, m := order[..|order| - 1], order[|order| - 1];
      FirstInEveryOrder(p, rest, h);
      MetNamesMore(p, order);
      AnsweringConcat(MetNames(p, rest), NameSeq(p[m]), h);
      FirstOnNode(p, m, h);
    }
  }

  lemma FirstOnNode(p: Provider, m: string, h: string)
    requires m in p && ComesFirst(p, h)
    ensures Answering(NameSeq(p[m]), h).Some? ==> Answering(NameSeq(p[m]), h) == Some(h)
  {
    var names := NameSeq(p[m]);
    var a := Answering(names, h);
    if a.Some? && a != Some(h) {
      var j :| 0 <= j < |names| && names[j] == a.value && Matches(a.value, h) &&
               forall i :: 0 <= i < j ==> !Matches(names[i], h);
      assert NamedBefore(p[m], j, h);
      var i :| 0 <= i < j && p[m][i].name == h;
      assert Matches(names[i], h);
    }
  }

  /** Otherwise an order that starts at the offending node goes wrong. */
  lemma WrongOrder(p: Provider, m: string, j: nat, h: string) returns (order: seq<string>)
    requires m in p && j < |p[m]| && PortDomain(p[m][j].name) == h && !NamedBefore(p[m], j, h)
    ensures Ordering(order, p.Keys) && !FirstMatch(MetNames(p, order), h, h)
  {
    var rest := OrderingExists(p.Keys - {m});
    order := [m] + rest;
    StartsAt(m, rest, p.Keys);
    MetNamesConcat(p, [m], rest);
    MetNamesMore(p, [m]);
    assert [m][..0] == [];
    assert MetNames(p, []) == [];
    assert MetNames(p, order) == NameSeq(p[m]) + MetNames(p, rest);
    var names := MetNames(p, order);
    assert names[j] == p[m][j].name && Matches(names[j], h);
    forall i | 0 <= i <= j ensures names[i] != h {
      assert names[i] == p[m][i].name;
      assert i == j ==> |names[i]| < |h|;
    }
  }

  lemma StartsAt(m: string, rest: seq<string>, keys: set<string>)
    requires m in keys && Ordering(rest, keys - {m})
    ensures Ordering([m] + rest, keys)
  {
    assert m !in rest;
    forall x ensures x in [m] + rest <==> x in keys {
      assert x in [m] + rest <==> x == m || x in rest;
    }
  }

  /** First hop, over the provider alone: host h is sent to the cluster of h whatever order Go happens to take, from
      every sidecar and from the front proxy, if and only if on every node h comes before any g with h == g:4100. */
  lemma FirstHopExactly(p: Provider, n: string, h: string)
    requires n in p && h in AllNames(p)
    ensures (forall order :: Ordering(order, p.Keys) ==>
               Lookup(VHosts(NodeOf(p, order, n).routes, EGRESS_ROUTE), h) == Some(h)) <==> ComesFirst(p, h)
    ensures (forall order :: Ordering(order, p.Keys) ==>
               Lookup(VHosts(Front(p, order).routes, INGRESS_ROUTE), h) == Some(h)) <==> ComesFirst(p, h)
  {
    if ComesFirst(p, h) {
      forall order | Ordering(order, p.Keys)
        ensures Lookup(VHosts(NodeOf(p, order, n).routes, EGRESS_ROUTE), h) == Some(h)
        ensures Lookup(VHosts(Front(p, order).routes, INGRESS_ROUTE), h) == Some(h)
      {
        ComesFirstRoute(p, order, n, h);
      }
    } else {
      var m, j :| m in p && 0 <= j < |p[m]| && PortDomain(p[m][j].name) == h && !NamedBefore(p[m], j, h);
      var order := WrongOrder(p, m, j, h);
      FirstHopRoute(p, order, n, h);
    }
  }

  lemma ComesFirstRoute(p: Provider, order: seq<string>, n: string, h: string)
    requires Ordering(order, p.Keys) && n in p && h in AllNames(p) && ComesFirst(p, h)
    ensures Lookup(VHosts(NodeOf(p, order, n).routes, EGRESS_ROUTE), h) == Some(h)
    ensures Lookup(VHosts(Front(p, order).routes, INGRESS_ROUTE), h) == Some(h)
  {
    FirstHopRoute(p, order, n, h);
    FirstInEveryOrder(p, order, h);
    MetNamesElements(p, order);
    assert h in Elements(MetNames(p, order));
    var i :| 0 <= i < |MetNames(p, order)| && MetNames(p, order)[i] == h;
    assert Matches(MetNames(p, order)[i], h);
  }

  /** First hop, the cluster: for every endpoint of a service h, wherever it lives, the cluster of h contains the
      sidecar of that endpoint, at the ingress port. */
  lemma FirstHopCluster(p: Provider, order: seq<string>, n: string, m: string, i: nat, e: Endpoint)
    requires Ordering(order, p.Keys) && n in p && m in p && i < |p[m]| && e in p[m][i].endpoints
    ensures var next := LbEndpoint(e.address, 4100, Weight(e.annotations));
            && next in Lbs(NodeOf(p, order, n).endpoints, p[m][i].name)
            && next in Lbs(Front(p, order).endpoints, p[m][i].name)
    ensures "endpoint.weight" !in e.annotations ==>
              && LbEndpoint(e.address, 4100, 64) in Lbs(NodeOf(p, order, n).endpoints, p[m][i].name)
              && LbEndpoint(e.address, 4100, 64) in Lbs(Front(p, order).endpoints, p[m][i].name)
  {
    var h := p[m][i].name;
    WeightExactly(e.annotations);
    ShareMember(p, m, i, e);
    EndpointConservation(p, order, n, h);
    FrontConservation(p, order, h);
    var next := LbEndpoint(e.address, 4100, Weight(e.annotations));
    assert next in multiset(Lbs(NodeOf(p, order, n).endpoints, h));
    assert next in multiset(Lbs(Front(p, order).endpoints, h));
  }

  /** Second hop, the route: the ingress route of the owning sidecar sends host h, and likewise h with the port, to
      the cluster local_h exactly when h comes first among the node's services that answer to it. */
  lemma SecondHopRoute(p: Provider, order: seq<string>, m: string, h: string, withPort: bool)
    requires Ordering(order, p.Keys) && m in p && h in Names(p[m])
    ensures var host := if withPort then PortDomain(h) else h;
            && (Lookup(VHosts(NodeOf(p, order, m).routes, INGRESS_ROUTE), host) == Some(LocalName(h))
                <==> FirstMatch(NameSeq(p[m]), host, h))
            && (NoClash(Names(p[m])) ==> FirstMatch(NameSeq(p[m]), host, h))
  {
    var host := if withPort then PortDomain(h) else h;
    IngressServesOwn(p, order, m);
    RouteSendsExactly(NameSeq(p[m]), true, host, h);
    NameSeqElements(p[m]);
    assert h in Elements(NameSeq(p[m]));
    if NoClash(Names(p[m])) {
      forall g | g in NameSeq(p[m]) && Matches(g, host) ensures g == h {
        assert g in Elements(NameSeq(p[m]));
        VHostInjective(g, h);
      }
      OnlyMatchIsFirst(NameSeq(p[m]), host, h);
    }
  }

  /** The virtual host of a service: its name, its two domains, its cluster. */
  lemma VHostExactly(h: string, cluster: string)
    ensures VHost(h, cluster).name == "vhost_" + h && VHost(h, cluster).cluster == cluster
    ensures VHost(h, cluster).domains == [h, h + ":4100"]
  {
  }

  lemma LocalLiteral(h: string)
    ensures LocalName(h) == "local_" + h
  {
    assert "local" + "_" == "local_";
  }

  /** Second hop, the cluster: local_h of the owning sidecar contains the endpoint itself. */
  lemma SecondHopCluster(p: Provider, order: seq<string>, m: string, i: nat, e: Endpoint)
    requires Ordering(order, p.Keys) && m in p && i < |p[m]| && e in p[m][i].endpoints
    ensures LbEndpoint(e.address, e.port, Weight(e.annotations)) in
              Lbs(NodeOf(p, order, m).endpoints, "local_" + p[m][i].name)
    ensures "endpoint.weight" !in e.annotations ==>
              LbEndpoint(e.address, e.port, 64) in Lbs(NodeOf(p, order, m).endpoints, "local_" + p[m][i].name)
  {
    LocalLiteral(p[m][i].name);
    WeightExactly(e.annotations);
    var h := p[m][i].name;
    SidecarEndpoints(p, order, m, LocalName(h));
    LocalNamed(p[m], h);
    NamedMember(p[m], i, e);
    ToLbMember(EndpointsNamed(p[m], h), e);
  }

  /** Two-hop routing is preserved: where no service name is another's with the port appended, a request for h that
      enters at any sidecar or at the front proxy can reach every endpoint of h. */
  lemma TwoHops(p: Provider, order: seq<string>, n: string, m: string, i: nat, e: Endpoint)
    requires Ordering(order, p.Keys) && Sound(p) && n in p && m in p && i < |p[m]| && e in p[m][i].endpoints
    ensures var h := p[m][i].name;
            var next := LbEndpoint(e.address, 4100, Weight(e.annotations));
            var own := VHosts(NodeOf(p, order, m).routes, "ingress_route");
            && Lookup(VHosts(NodeOf(p, order, n).routes, "egress_route"), h) == Some(h)
            && Lookup(VHosts(Front(p, order).routes, "ingress_route"), h) == Some(h)
            && next in Lbs(NodeOf(p, order, n).endpoints, h) && next in Lbs(Front(p, order).endpoints, h)
            && Lookup(own, h) == Some("local_" + h) && Lookup(own, h + ":4100") == Some("local_" + h)
            && LbEndpoint(e.address, e.port, Weight(e.annotations)) in Lbs(NodeOf(p, order, m).endpoints, "local_" + h)
  {
    LocalLiteral(p[m][i].name);
    var h := p[m][i].name;
    assert h in AllNames(p) && h in Names(p[m]);
    assert forall g :: g in Names(p[m]) ==> g in AllNames(p);
    FirstHopRoute(p, order, n, h);
    FirstHopCluster(p, order, n, m, i, e);
    SecondHopRoute(p, order, m, h, false);
    SecondHopRoute(p, order, m, h, true);
    SecondHopCluster(p, order, m, i, e);
  }

  /** The same over the provider alone and exactly: for a service h of node m, both hops are right in every order, with
      and without the port, if and only if h comes before what else answers to h on every node, and before what else
      answers to h:4100 on its own. */
  lemma TwoHopsExactly(p: Provider, n: string, m: string, h: string)
    requires n in p && m in p && h in Names(p[m])
    ensures (forall order :: Ordering(order, p.Keys) ==> HopsRight(p, order, n, m, h)) <==>
              ComesFirst(p, h) && FirstMatch(NameSeq(p[m]), PortDomain(h), h)
  {
    assert h in AllNames(p);
    var some := OrderingExists(p.Keys);
    SecondHopRoute(p, some, m, h, true);
    FirstHopExactly(p, n, h);
    if ComesFirst(p, h) && FirstMatch(NameSeq(p[m]), PortDomain(h), h) {
      forall order | Ordering(order, p.Keys) ensures HopsRight(p, order, n, m, h) {
        ComesFirstRoute(p, order, n, h);
        ComesFirstOwn(p, m, h);
        SecondHopRoute(p, order, m, h, false);
        SecondHopRoute(p, order, m, h, true);
      }
    } else if ComesFirst(p, h) {
      assert !HopsRight(p, some, n, m, h);
    } else {
      var order :| Ordering(order, p.Keys) &&
                   Lookup(VHosts(NodeOf(p, order, n).routes, EGRESS_ROUTE), h) != Some(h);
      assert !HopsRight(p, order, n, m, h);
    }
  }

  /** A request for h is sent to h by the egress route of n and then, at its own node m, to local_h. */
  ghost predicate HopsRight(p: Provider, order: seq<string>, n: string, m: string, h: string)
    requires Ordering(order, p.Keys) && n in p && m in p
  {
    var own := VHosts(NodeOf(p, order, m).routes, INGRESS_ROUTE);
    && Lookup(VHosts(NodeOf(p, order, n).routes, EGRESS_ROUTE), h) == Some(h)
    && Lookup(own, h) == Some(LocalName(h)) && Lookup(own, PortDomain(h)) == Some(LocalName(h))
  }

  lemma ComesFirstOwn(p: Provider, m: string, h: string)
    requires m in p && h in Names(p[m]) && ComesFirst(p, h)
    ensures FirstMatch(NameSeq(p[m]), h, h)
  {
    FirstOnNode(p, m, h);
    var i :| 0 <= i < |p[m]| && p[m][i].name == h;
    assert NameSeq(p[m])[i] == h && Matches(h, h);
  }

  /** The condition is needed: with the services a and a:4100, in this order, host a:4100 goes to the cluster a. */
  lemma ClashMisroutes(n: string, eps: seq<Endpoint>)
    ensures Lookup(VHosts(NodeOf(Clashing(n, eps), [n], n).routes, EGRESS_ROUTE), "a:4100") == Some("a")
  {
    ClashMatches();
    assert NameSeq(Clashing(n, eps)[n]) == ["a", "a:4100"];
    OneNodeSends(Clashing(n, eps), n, "a:4100", "a");
  }

  lemma OneNodeSends(p: Provider, n: string, host: string, g: string)
    requires p.Keys == {n} && Ordering([n], p.Keys) && FirstMatch(NameSeq(p[n]), host, g)
    ensures Lookup(VHosts(NodeOf(p, [n], n).routes, EGRESS_ROUTE), host) == Some(g)
  {
    EgressServesAll(p, [n], n);
    assert [n][..0] == [];
    MetNamesMore(p, [n]);
    assert MetNames(p, []) == [] && [] + NameSeq(p[n]) == NameSeq(p[n]);
    RouteSendsExactly(NameSeq(p[n]), false, host, g);
  }

  function Clashing(n: string, eps: seq<Endpoint>): Provider {
    map[n := [Service("a", eps), Service("a:4100", eps)]]
  }

  lemma ClashMatches()
    ensures FirstMatch(["a", "a:4100"], "a:4100", "a")
  {
    var names := ["a", "a:4100"];
    assert names[0] == "a" && Matches("a", "a:4100");
  }

  /** A sidecar's egress route is acceptable to a proxy exactly when the service names do not clash. */
  lemma EgressRouteValidExactly(p: Provider, order: seq<string>, n: string)
    requires Ordering(order, p.Keys) && n in p
    ensures DomainsDistinct(VHosts(NodeOf(p, order, n).routes, EGRESS_ROUTE)) <==> Sound(p)
  {
    EgressServesAll(p, order, n);
    DomainsDistinctExactly(VHosts(NodeOf(p, order, n).routes, EGRESS_ROUTE), AllNames(p), false);
  }

  /** The same for a sidecar's ingress route and its own services. */
  lemma IngressRouteValidExactly(p: Provider, order: seq<string>, n: string)
    requires Ordering(order, p.Keys) && n in p
    ensures DomainsDistinct(VHosts(NodeOf(p, order, n).routes, INGRESS_ROUTE)) <==> NoClash(Names(p[n]))
  {
    IngressServesOwn(p, order, n);
    DomainsDistinctExactly(VHosts(NodeOf(p, order, n).routes, INGRESS_ROUTE), Names(p[n]), true);
  }

  /** The same for the front proxy. */
  lemma FrontRouteValidExactly(p: Provider, order: seq<string>)
    requires Ordering(order, p.Keys)
    ensures DomainsDistinct(VHosts(Front(p, order).routes, INGRESS_ROUTE)) <==> Sound(p)
  {
    FrontServesAll(p, order);
    DomainsDistinctExactly(VHosts(Front(p, order).routes, INGRESS_ROUTE), AllNames(p), false);
  }

  /******* Consistency *******/

  /** The snapshot that the updater stores for a node. */
  function SnapshotFrom(version: string, n: NodeState): Snapshot {
    SnapshotOf(version, n.endpoints, n.clusters, n.routes, Index(n.listeners))
  }

  lemma ClusterReferences(n: NodeState)
    requires NodeOk(n)
    ensures References(n.clusters) == n.endpoints.Keys
  {
    forall x ensures x in References(n.clusters) <==> x in n.clusters {
      if x in n.clusters { assert x in RefsOf(n.clusters[x]); }
    }
  }

  lemma ListenerReference(name: string, route: string, filters: seq<HttpFilter>)
    ensures RefsOf(ListenerResource(name, route, filters)) == {route}
  {
    var res := ListenerResource(name, route, filters);
    var f := res.filterChains[0][0];
    assert FilterRefs(f) == {route};
    assert route in RefsOf(res);
  }

  lemma IndexTwo(a: Resource, b: Resource)
    requires ResourceName(a) != ResourceName(b)
    ensures Index([a]) == map[ResourceName(a) := a]
    ensures Index([a, b]) == map[ResourceName(a) := a, ResourceName(b) := b]
  {
    assert [a][..0] == [];
    assert Index([a]) == map[][ResourceName(a) := a];
    assert [a, b][..1] == [a];
    assert Index([a, b]) == Index([a])[ResourceName(b) := b];
  }

  lemma ReferencesTwo(a: Resource, b: Resource, ra: string, rb: string)
    requires ResourceName(a) != ResourceName(b) && RefsOf(a) == {ra} && RefsOf(b) == {rb}
    ensures References(Index([a])) == {ra}
    ensures References(Index([a, b])) == {ra, rb}
  {
    IndexTwo(a, b);
    var one, two := Index([a]), Index([a, b]);
    assert one[ResourceName(a)] == a && two[ResourceName(a)] == a && two[ResourceName(b)] == b;
    assert ra in References(one) && ra in References(two) && rb in References(two);
  }

  lemma ListenerNames()
    ensures "default-ingress" != "default-egress" && "" != "default-egress"
  {
    assert |"default-ingress"| == 15 && |"default-egress"| == 14;
  }

  /** A well-formed node gives a consistent snapshot exactly when its listeners ask for the routes it has. */
  lemma ConsistentExactly(version: string, n: NodeState)
    requires NodeOk(n)
    ensures IsConsistent(SnapshotFrom(version, n)) <==> References(Index(n.listeners)) == n.routes.Keys
  {
    ClusterReferences(n);
  }

  lemma SidecarListeners(p: Provider, order: seq<string>, n: string)
    requires (forall m :: m in order ==> m in p) && n in p
    ensures References(Index(NodeOf(p, order, n).listeners)) == {INGRESS_ROUTE, EGRESS_ROUTE}
  {
    ListenerNames();
    ListenerReference("default-ingress", INGRESS_ROUTE, InjectAll(p[n]));
    ListenerReference("default-egress", EGRESS_ROUTE, [Router]);
    ReferencesTwo(ListenerResource("default-ingress", INGRESS_ROUTE, InjectAll(p[n])),
                  ListenerResource("default-egress", EGRESS_ROUTE, [Router]), INGRESS_ROUTE, EGRESS_ROUTE);
  }

  /** The snapshot of a sidecar is consistent exactly when its node has at least one service. */
  lemma SidecarConsistentExactly(p: Provider, order: seq<string>, n: string, version: string)
    requires Ordering(order, p.Keys) && n in p
    ensures IsConsistent(SnapshotFrom(version, NodeOf(p, order, n))) <==> p[n] != []
  {
    SidecarEndpoints(p, order, n, "");
    ConsistentExactly(version, NodeOf(p, order, n));
    SidecarListeners(p, order, n);
    IngressServesOwn(p, order, n);
    TwoRoutes(INGRESS_ROUTE, EGRESS_ROUTE);
  }

  lemma TwoRoutes(a: string, b: string)
    ensures {b} + {a} == {a, b}
    ensures a != b ==> {b} + {} != {a, b}
  {
    assert a in {a, b};
  }

  /** The snapshot of the front proxy is always consistent. */
  lemma FrontConsistent(p: Provider, order: seq<string>, version: string)
    requires Ordering(order, p.Keys)
    ensures IsConsistent(SnapshotFrom(version, Front(p, order)))
  {
    FrontConservation(p, order, "");
    ConsistentExactly(version, Front(p, order));
    ListenerNames();
    ListenerReference("", INGRESS_ROUTE, [ExtAuthz, Router]);
    ListenerReference("default-egress", EGRESS_ROUTE, [Router]);
    ReferencesTwo(ListenerResource("", INGRESS_ROUTE, [ExtAuthz, Router]),
                  ListenerResource("default-egress", EGRESS_ROUTE, [Router]), INGRESS_ROUTE, EGRESS_ROUTE);
  }

  /******* Filters *******/

  /** What is injected for the services, in the order in which it is. */
  function Injections(svcs: seq<Service>): seq<HttpFilter> {
    if svcs == [] then []
    else
      var config := ConfigOf(svcs[|svcs| - 1]);
      Injections(svcs[..|svcs| - 1]) + [HealthFilter(config.health)] + Faults(config.fault)
  }

  function Reverse(s: seq<HttpFilter>): seq<HttpFilter> {
    if s == [] then [] else [s[|s| - 1]] + Reverse(s[..|s| - 1])
  }

  lemma {:induction false} ReverseConcat(a: seq<HttpFilter>, b: seq<HttpFilter>)
    ensures Reverse(a + b) == Reverse(b) + Reverse(a)
  {
    if b == [] {
      assert a + b == a;
    } else {
      ReverseConcat(a, b[..|b| - 1]);
      assert (a + b)[..|a + b| - 1] == a + b[..|b| - 1];
    }
  }

  /** The filters of an ingress listener are the injections in reverse, then the one router. */
  lemma {:induction false} IngressFilters(svcs: seq<Service>)
    ensures InjectAll(svcs) == Reverse(Injections(svcs)) + [Router]
    ensures Router !in Reverse(Injections(svcs))
  {
    if svcs != [] {
      var rest, s := svcs[..|svcs| - 1], svcs[|svcs| - 1];
      IngressFilters(rest);
      var health, fault := [HealthFilter(ConfigOf(s).health)], Faults(ConfigOf(s).fault);
      ReverseConcat(Injections(rest) + health, fault);
      ReverseConcat(Injections(rest), health);
      assert Reverse(health) == health by { assert health[..0] == []; }
      assert Reverse(fault) == fault by { assert fault != [] ==> fault[..0] == []; }
    }
  }
}
