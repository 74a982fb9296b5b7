/** The two halves together: what a sidecar is told about the mesh, over the wire. */
module EndToEnd {
  import opened Xds
  import opened SnapshotCache
  import opened Mesh
  import opened Routing
  import opened Updater
  import opened Convergence
  import opened Content
  import opened Versions
  import opened Agreement
  import opened Collisions
  import Delivery
  import Protocol

  /** A request with these names asks for x: it names nothing at all, or x among others. */
  predicate AsksFor(names: seq<string>, x: string) { names == [] || x in names }

  /** Position i of the list, and no other, is called x. */
  ghost predicate OnlyAt(told: seq<Resource>, i: nat, x: string) {
    i < |told| && forall j :: 0 <= j < |told| ==> (ResourceName(told[j]) == x <==> j == i)
  }

  /** Among the resources exactly one is called x, and it is this one. */
  ghost predicate TellsOnce(told: seq<Resource>, x: string, res: Resource) {
    exists i: nat :: OnlyAt(told, i, x) && told[i] == res
  }

  /** The list has each resource that is there and asked for exactly once, and nothing else. */
  ghost predicate TellsExactly(told: seq<Resource>, items: map<string, Resource>, names: seq<string>) {
    && (forall x :: x in items && AsksFor(names, x) ==> TellsOnce(told, x, items[x]))
    && (forall i :: 0 <= i < |told| ==> ResourceName(told[i]) in items && AsksFor(names, ResourceName(told[i])))
  }

  /** Whatever a request names, its answer has each resource that is there and asked for exactly once. */
  lemma AnswerTells(resp: Response, r: Request, g: ResourceGroup)
    requires Answers(resp, r, g) && WellKeyed(g.items)
    ensures TellsExactly(resp.resources, g.items, r.names)
  {
    var wanted := Requested(r, g.items);
    var order :| ListedBy(order, wanted, resp.resources);
    forall i | 0 <= i < |order| ensures order[i] in wanted && ResourceName(resp.resources[i]) == order[i] {
      assert order[i] in order;
    }
    forall x | x in g.items && AsksFor(r.names, x) ensures TellsOnce(resp.resources, x, g.items[x]) {
      assert x in wanted;
      var i :| 0 <= i < |order| && order[i] == x;
      assert OnlyAt(resp.resources, i, x);
    }
  }

  /******* What the answers say about the mesh *******/

  /** The resources of type k that are stored for the sidecar of node n. */
  function SidecarItems(p: Provider, order: seq<string>, n: string, k: Kind): map<string, Resource>
    requires (forall m :: m in order ==> m in p) && n in p
  {
    Group(SnapshotFrom("", NodeOf(p, order, n)), Of(k)).items
  }

  lemma SidecarItemsKeyed(p: Provider, order: seq<string>, n: string, k: Kind)
    requires Ordering(order, p.Keys) && n in p
    ensures WellKeyed(SidecarItems(p, order, n, k))
  {
    SidecarEndpoints(p, order, n, "");
    IndexKeyed(NodeOf(p, order, n).listeners);
  }

  lemma {:induction false} IndexKeyed(items: seq<Resource>)
    ensures WellKeyed(Index(items))
  {
    if items != [] { IndexKeyed(items[..|items| - 1]); }
  }

  /** EDS: the load assignment of a service lists exactly the mesh's endpoints of that service (and the node's own, if
      one of its local names is the same). */
  lemma EndpointsTold(p: Provider, order: seq<string>, n: string, told: seq<Resource>, names: seq<string>, h: string)
      returns (lbs: seq<LbEndpoint>)
    requires Ordering(order, p.Keys) && n in p && h in AllNames(p) && AsksFor(names, h)
    requires TellsExactly(told, SidecarItems(p, order, n, Endpoints), names)
    ensures TellsOnce(told, h, LoadAssignment(h, lbs))
    ensures multiset(lbs) == Shares(p, p.Keys, h) + multiset(ToLb(EndpointsNamed(Locals(p[n]), h)))
  {
    SidecarEndpoints(p, order, n, h);
    EndpointConservation(p, order, n, h);
    lbs := Lbs(NodeOf(p, order, n).endpoints, h);
    assert SidecarItems(p, order, n, Endpoints)[h] == LoadAssignment(h, lbs);
  }

  /** CDS: one cluster for every service of the mesh and for every local name of the node, and no others. */
  ghost predicate ClustersRight(p: Provider, n: string, told: seq<Resource>, names: seq<string>)
    requires n in p
  {
    var known := AllNames(p) + Names(Locals(p[n]));
    && (forall x :: x in known && AsksFor(names, x) ==> TellsCluster(told, x))
    && (forall i :: 0 <= i < |told| ==> ResourceName(told[i]) in known && AsksFor(names, ResourceName(told[i])))
  }

  ghost predicate TellsCluster(told: seq<Resource>, x: string) {
    exists c: Resource :: TellsOnce(told, x, c) && c.EnvoyCluster? && c.eds && c.serviceName == ""
  }

  lemma ClustersTold(p: Provider, order: seq<string>, n: string, told: seq<Resource>, names: seq<string>)
    requires Ordering(order, p.Keys) && n in p
    requires TellsExactly(told, SidecarItems(p, order, n, Clusters), names)
    ensures ClustersRight(p, n, told, names)
  {
    SidecarEndpoints(p, order, n, "");
    var items := SidecarItems(p, order, n, Clusters);
    forall x | x in items && AsksFor(names, x) ensures TellsCluster(told, x) {
      assert TellsOnce(told, x, items[x]);
    }
  }

  /** The virtual hosts serve these services; where no name is another's with the port appended, every service is sent
      to its cluster, with and without the port. */
  ghost predicate SendsAll(vs: seq<VirtualHost>, hosts: set<string>, local: bool) {
    && Serves(vs, hosts, local)
    && (NoClash(hosts) ==> forall h :: h in hosts ==> SendsHost(vs, h, local))
  }

  ghost predicate SendsHost(vs: seq<VirtualHost>, h: string, local: bool) {
    Lookup(vs, h) == Some(Target(h, local)) && Lookup(vs, PortDomain(h)) == Some(Target(h, local))
  }

  lemma RouteSendsAll(names: seq<string>, local: bool)
    ensures SendsAll(RouteOf(names, local), Elements(names), local)
  {
    RouteServes(names, local);
    if NoClash(Elements(names)) {
      forall h | h in Elements(names) ensures SendsHost(RouteOf(names, local), h, local) {
        SendsOne(names, local, h, h);
        SendsOne(names, local, h, PortDomain(h));
      }
    }
  }

  lemma SendsOne(names: seq<string>, local: bool, h: string, host: string)
    requires NoClash(Elements(names)) && h in names && Matches(h, host)
    ensures Lookup(RouteOf(names, local), host) == Some(Target(h, local))
  {
    assert h in Elements(names);
    forall g | g in names && Matches(g, host) ensures g == h {
      assert g in Elements(names);
      VHostInjective(g, h);
    }
    OnlyMatchIsFirst(names, host, h);
    RouteSendsExactly(names, local, host, h);
  }

  /** The list has one route of this name, and it serves these services. */
  ghost predicate TellsRoute(told: seq<Resource>, route: string, hosts: set<string>, local: bool) {
    exists vs :: TellsOnce(told, route, RouteConfiguration(route, vs)) && SendsAll(vs, hosts, local)
  }

  /** RDS: the egress route serves every service of the mesh, and the ingress route of a node with services its own. */
  ghost predicate RoutesRight(all: set<string>, own: set<string>, told: seq<Resource>, names: seq<string>) {
    && (AsksFor(names, EGRESS_ROUTE) ==> TellsRoute(told, EGRESS_ROUTE, all, false))
    && (AsksFor(names, INGRESS_ROUTE) && own != {} ==> TellsRoute(told, INGRESS_ROUTE, own, true))
  }

  lemma RoutesTold(p: Provider, order: seq<string>, n: string, told: seq<Resource>, names: seq<string>)
    requires Ordering(order, p.Keys) && n in p
    requires TellsExactly(told, SidecarItems(p, order, n, Routes), names)
    ensures RoutesRight(AllNames(p), Names(p[n]), told, names)
  {
    SidecarRouteMap(p, order, n);
    MetNamesElements(p, order);
    NameSeqElements(p[n]);
    RoutesOf(told, MetNames(p, order), NameSeq(p[n]), names);
  }

  lemma RoutesOf(told: seq<Resource>, all: seq<string>, own: seq<string>, names: seq<string>)
    requires TellsExactly(told, RouteMap(RouteOf(all, false), RouteOf(own, true)), names)
    ensures RoutesRight(Elements(all), Elements(own), told, names)
  {
    RouteSendsAll(all, false);
    RouteSendsAll(own, true);
    RoutesTell(told, RouteOf(all, false), RouteOf(own, true), names, Elements(all), Elements(own));
  }

  lemma RoutesTell(told: seq<Resource>, egress: seq<VirtualHost>, ingress: seq<VirtualHost>, names: seq<string>,
                   all: set<string>, own: set<string>)
    requires TellsExactly(told, RouteMap(egress, ingress), names)
    requires SendsAll(egress, all, false) && SendsAll(ingress, own, true)
    ensures RoutesRight(all, own, told, names)
  {
    RouteNamesDiffer();
    var items := RouteMap(egress, ingress);
    assert items[EGRESS_ROUTE] == RouteConfiguration(EGRESS_ROUTE, egress);
    if AsksFor(names, INGRESS_ROUTE) && own != {} {
      var h :| h in own;
      assert VHost(h, Target(h, true)) in ingress;
      assert items[INGRESS_ROUTE] == RouteConfiguration(INGRESS_ROUTE, ingress);
    }
  }

  /** LDS: the two listeners, with the filters of the node's services in the ingress listener. */
  ghost predicate ListenersRight(svcs: seq<Service>, told: seq<Resource>, names: seq<string>) {
    && (AsksFor(names, "default-ingress") ==>
          TellsOnce(told, "default-ingress", ListenerResource("default-ingress", INGRESS_ROUTE, InjectAll(svcs))))
    && (AsksFor(names, "default-egress") ==>
          TellsOnce(told, "default-egress", ListenerResource("default-egress", EGRESS_ROUTE, [Router])))
  }

  lemma ListenersTold(p: Provider, order: seq<string>, n: string, told: seq<Resource>, names: seq<string>)
    requires Ordering(order, p.Keys) && n in p
    requires TellsExactly(told, SidecarItems(p, order, n, Listeners), names)
    ensures ListenersRight(p[n], told, names)
  {
    SidecarListenerGroup(p, order, n);
  }

  /******* What a converged sidecar has been told *******/

  /** The client has come to rest on type k, for which it has always asked for these names; its first request claimed
      another version than the stored one. */
  ghost predicate Converged(me: Client, ws: seq<World>, moves: seq<Move>, i: nat, k: Kind, first: string,
                            names: seq<string>)
  {
    && IsHistory(me, ws, moves) && i < |ws| && Resting(me, ws[i], k)
    && Habitual(Habit(first, Some(names)), moves, i, k) && first != StoredVersion(me, ws[i], k)
  }

  /** What the updater compiled from the provider is what is stored for the client's node. */
  ghost predicate Deploys(hash: Hash, me: Client, w: World, p: Provider, order: seq<string>) {
    me.node in w.sys.cache.snapshots && CompiledFrom(hash, p, order, me.node, w.sys.cache.snapshots[me.node])
  }

  /** The resources of the latest response of a type. */
  function Told(me: Client, w: World, k: Kind): seq<Resource>
    requires Ranked(me, w)
  {
    if Latest(me, w, k).Some? then Latest(me, w, k).value.response.resources else []
  }

  /** With distinct versions a converged sidecar has been told exactly what it asks for of the compiled mesh. */
  lemma ConvergedTells(hash: Hash, me: Client, ws: seq<World>, moves: seq<Move>, i: nat, k: Kind, first: string,
                       names: seq<string>, p: Provider, order: seq<string>)
    requires Converged(me, ws, moves, i, k, first, names) && Deploys(hash, me, ws[i], p, order)
    requires DistinctVersions(me, ws, i, k)
    ensures TellsExactly(Told(me, ws[i], k), SidecarItems(p, order, me.node, k), names)
  {
    RestSuitsWatch(me, ws, moves, i, k, first, names);
    var resp := Latest(me, ws[i], k).value.response;
    var g := StoredGroup(me, ws[i], k);
    SidecarItemsKeyed(p, order, me.node, k);
    assert g.items == SidecarItems(p, order, me.node, k);
    var asked := Delivery.WatchOf(ws[i].sys, Protocol.Owner(me.sid, k)).request;
    AnswerTells(resp.(request := asked), asked, g);
  }

  /** Endpoints: a converged sidecar has been told, for each service it asks for, exactly the mesh's endpoints. */
  lemma ConvergedSidecarKnowsEndpoints(hash: Hash, me: Client, ws: seq<World>, moves: seq<Move>, i: nat, first: string,
                                       names: seq<string>, p: Provider, order: seq<string>, h: string)
      returns (lbs: seq<LbEndpoint>)
    requires Converged(me, ws, moves, i, Endpoints, first, names) && Deploys(hash, me, ws[i], p, order)
    requires CollisionFree(hash) && OnlyStores(snap => HashedBy(hash, snap), me, ws, moves, i)
    requires h in AllNames(p) && AsksFor(names, h)
    ensures TellsOnce(Told(me, ws[i], Endpoints), h, LoadAssignment(h, lbs))
    ensures multiset(lbs) == Shares(p, p.Keys, h) + multiset(ToLb(EndpointsNamed(Locals(p[me.node]), h)))
  {
    EndpointVersionsDistinct(hash, me, ws, moves, i);
    ConvergedTells(hash, me, ws, moves, i, Endpoints, first, names, p, order);
    lbs := EndpointsTold(p, order, me.node, Told(me, ws[i], Endpoints), names, h);
  }

  /** The snapshot was compiled from some provider that fits, in some order. */
  ghost predicate CompiledFit(hash: Hash, fits: Provider -> bool, n: string, snap: Snapshot) {
    exists q, o :: fits(q) && CompiledFrom(hash, q, o, n, snap)
  }

  /** All snapshots of the client's node come from passes of the updater over providers that fit. */
  ghost predicate OnlyPasses(hash: Hash, fits: Provider -> bool, me: Client, ws: seq<World>, moves: seq<Move>, i: nat)
    requires i <= |moves| < |ws|
  {
    OnlyStores(snap => CompiledFit(hash, fits, me.node, snap), me, ws, moves, i)
  }

  /** Whatever the type, a converged sidecar has been told exactly what it asks for of the mesh as some pass compiled
      it, and that pass agrees with the stored one on all load assignments. Nothing is assumed of versions but that the
      hash has no collisions. */
  lemma ConvergedToPass(hash: Hash, fits: Provider -> bool, me: Client, ws: seq<World>, moves: seq<Move>, i: nat,
                        k: Kind, first: string, names: seq<string>, p: Provider, order: seq<string>)
      returns (q: Provider, o: seq<string>)
    requires Converged(me, ws, moves, i, k, first, names) && Deploys(hash, me, ws[i], p, order) && k != Secrets
    requires CollisionFree(hash) && OnlyPasses(hash, fits, me, ws, moves, i)
    ensures fits(q) && Ordering(o, q.Keys) && me.node in q
    ensures TellsExactly(Told(me, ws[i], k), SidecarItems(q, o, me.node, k), names)
    ensures SidecarItems(q, o, me.node, Endpoints) == SidecarItems(p, order, me.node, Endpoints)
    ensures AllNames(q) + Names(Locals(q[me.node])) == AllNames(p) + Names(Locals(p[me.node]))
  {
    var j := RestHasStoredVersion(me, ws, moves, i, k, Habit(first, Some(names)));
    var s, t := ws[i].sys.cache.snapshots[me.node], ws[j].sys.cache.snapshots[me.node];
    StoredIs(snap => CompiledFit(hash, fits, me.node, snap), me, ws, moves, i, j);
    q, o :| fits(q) && CompiledFrom(hash, q, o, me.node, t);
    CompiledGroup(hash, p, order, me.node, s, k);
    CompiledGroup(hash, q, o, me.node, t, k);
    OneVersionSameEndpoints(hash, p, order, q, o, me.node, s, t);
    SidecarItemsKeyed(q, o, me.node, k);
    var resp := Latest(me, ws[i], k).value.response;
    AnswerTells(resp, resp.request, StoredGroup(me, ws[j], k));
  }

  /** A compiled snapshot has one version for the four types it has resources of. */
  lemma CompiledGroup(hash: Hash, p: Provider, order: seq<string>, n: string, snap: Snapshot, k: Kind)
    requires CompiledFrom(hash, p, order, n, snap) && k != Secrets
    ensures Group(snap, Of(k)).version == snap.endpoints.version
    ensures Group(snap, Of(k)).items == SidecarItems(p, order, n, k)
  {
  }

  /** Clusters: a converged sidecar has been told one for every service of the mesh and every local name of the node
      that it asks for, and no others, whatever passes there were. */
  lemma ConvergedSidecarKnowsClusters(hash: Hash, me: Client, ws: seq<World>, moves: seq<Move>, i: nat, first: string,
                                      names: seq<string>, p: Provider, order: seq<string>)
    requires Converged(me, ws, moves, i, Clusters, first, names) && Deploys(hash, me, ws[i], p, order)
    requires CollisionFree(hash) && OnlyPasses(hash, q => true, me, ws, moves, i)
    ensures ClustersRight(p, me.node, Told(me, ws[i], Clusters), names)
  {
    var q, o := ConvergedToPass(hash, q => true, me, ws, moves, i, Clusters, first, names, p, order);
    ClustersTold(q, o, me.node, Told(me, ws[i], Clusters), names);
  }

  /** No service is called like a local cluster. */
  ghost predicate NoLocalNames(p: Provider) {
    forall h :: h in AllNames(p) ==> !IsLocal(h)
  }

  lemma LocalNameIsLocal(x: string)
    ensures IsLocal(LocalName(x)) && LocalName(x)[6..] == x
  {
    assert LocalName(x)[6..] == x;
  }

  /** The keys of the load assignments tell the services of the mesh from those of the node. */
  lemma KeysTellNames(p: Provider, q: Provider, n: string)
    requires n in p && n in q && NoLocalNames(p) && NoLocalNames(q)
    requires AllNames(q) + Names(Locals(q[n])) == AllNames(p) + Names(Locals(p[n]))
    ensures AllNames(q) == AllNames(p) && Names(q[n]) == Names(p[n])
  {
    LocalsNames(p[n]);
    LocalsNames(q[n]);
    forall x ensures IsLocal(LocalName(x)) && LocalName(x)[6..] == x { LocalNameIsLocal(x); }
    forall h ensures h in AllNames(q) <==> h in AllNames(p) {
      assert h in AllNames(p) + Names(Locals(p[n])) <==> h in AllNames(q) + Names(Locals(q[n]));
    }
    forall x ensures x in Names(q[n]) <==> x in Names(p[n]) {
      assert LocalName(x) in AllNames(p) + Names(Locals(p[n])) <==> LocalName(x) in AllNames(q) + Names(Locals(q[n]));
      LocalsHave(p[n], x);
      LocalsHave(q[n], x);
    }
  }

  lemma LocalsHave(svcs: seq<Service>, x: string)
    ensures LocalName(x) in Names(Locals(svcs)) <==> x in Names(svcs)
  {
    LocalsNames(svcs);
    if LocalName(x) in Names(Locals(svcs)) {
      var y :| y in Names(svcs) && LocalName(x) == LocalName(y);
      LocalNameInjective(x, y);
    }
  }

  /** Routes: if no service is ever called like a local cluster, a converged sidecar has been told an egress route that
      serves exactly the services of the mesh and an ingress route that serves exactly those of its node, whatever
      passes there were and in whatever orders. */
  lemma ConvergedSidecarKnowsRoutes(hash: Hash, me: Client, ws: seq<World>, moves: seq<Move>, i: nat, first: string,
                                    names: seq<string>, p: Provider, order: seq<string>)
    requires Converged(me, ws, moves, i, Routes, first, names) && Deploys(hash, me, ws[i], p, order)
    requires CollisionFree(hash) && NoLocalNames(p) && OnlyPasses(hash, q => NoLocalNames(q), me, ws, moves, i)
    ensures RoutesRight(AllNames(p), Names(p[me.node]), Told(me, ws[i], Routes), names)
  {
    var q, o := ConvergedToPass(hash, q => NoLocalNames(q), me, ws, moves, i, Routes, first, names, p, order);
    RoutesTold(q, o, me.node, Told(me, ws[i], Routes), names);
    KeysTellNames(p, q, me.node);
  }

  /** Listeners: a converged sidecar has been told the two listeners, with their routes and with the filters of the
      node's services as some pass found them; if all passes found the same filters, with those of the last one. */
  lemma ConvergedSidecarKnowsListeners(hash: Hash, me: Client, ws: seq<World>, moves: seq<Move>, i: nat, first: string,
                                       names: seq<string>, p: Provider, order: seq<string>, fits: Provider -> bool)
      returns (q: Provider)
    requires Converged(me, ws, moves, i, Listeners, first, names) && Deploys(hash, me, ws[i], p, order)
    requires CollisionFree(hash) && OnlyPasses(hash, fits, me, ws, moves, i)
    ensures fits(q) && me.node in q && ListenersRight(q[me.node], Told(me, ws[i], Listeners), names)
    ensures SameFilters(q[me.node], p[me.node]) ==> ListenersRight(p[me.node], Told(me, ws[i], Listeners), names)
    ensures DistinctVersions(me, ws, i, Listeners) ==> ListenersRight(p[me.node], Told(me, ws[i], Listeners), names)
  {
    var o;
    q, o := ConvergedToPass(hash, fits, me, ws, moves, i, Listeners, first, names, p, order);
    ListenersTold(q, o, me.node, Told(me, ws[i], Listeners), names);
    InjectAllExactly(q[me.node], p[me.node]);
    if DistinctVersions(me, ws, i, Listeners) {
      ConvergedTells(hash, me, ws, moves, i, Listeners, first, names, p, order);
      ListenersTold(p, order, me.node, Told(me, ws[i], Listeners), names);
    }
  }
}
