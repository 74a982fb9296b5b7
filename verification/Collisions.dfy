/** Inputs on which distinct snapshots of the updater have one version, whatever the hash: its versions see load
    assignments only. */
module Collisions {
  import opened Xds
  import opened Config
  import opened Mesh
  import opened Routing
  import opened Updater
  import opened Agreement

  /** Nodes with the same load assignments can get the same version. */
  lemma OneVersion(hash: Hash, m: NodeState, m': NodeState) returns (v: string)
    requires m.endpoints == m'.endpoints
    ensures SnapshotBy(hash, m, SnapshotFrom(v, m)) && SnapshotBy(hash, m', SnapshotFrom(v, m'))
  {
    var listing := ListingExists(m.endpoints);
    v := hash(listing);
  }

  /******* Providers with the same load assignments *******/

  /** Lists of services with the same names and, under every name, the same load-balanced endpoints. */
  ghost predicate SameLoad(a: seq<Service>, b: seq<Service>) {
    Names(a) == Names(b) && forall z :: ToLb(EndpointsNamed(a, z)) == ToLb(EndpointsNamed(b, z))
  }

  ghost predicate SameLoads(p: Provider, q: Provider) {
    p.Keys == q.Keys && forall m :: m in p ==> SameLoad(p[m], q[m])
  }

  lemma EgressLoad(a: seq<Endpoint>, b: seq<Endpoint>)
    requires ToLb(a) == ToLb(b)
    ensures ToLb(EgressEndpoints(a)) == ToLb(EgressEndpoints(b))
  {
    assert |a| == |ToLb(a)| && |b| == |ToLb(b)|;
    forall i | 0 <= i < |a| ensures ToLb(EgressEndpoints(a))[i] == ToLb(EgressEndpoints(b))[i] {
      assert ToLb(a)[i] == ToLb(b)[i];
    }
  }

  lemma {:induction false} GlobalLoad(p: Provider, q: Provider, order: seq<string>, z: string)
    requires SameLoads(p, q) && forall m :: m in order ==> m in p
    ensures ToLb(EndpointsNamed(GlobalServices(p, order), z)) == ToLb(EndpointsNamed(GlobalServices(q, order), z))
  {
    if order != [] {
      var rest, m := order[..|order| - 1], order[|order| - 1];
      GlobalLoad(p, q, rest, z);
      NodeLoad(p, rest, m, z);
      NodeLoad(q, rest, m, z);
      assert SameLoad(p[m], q[m]);
      EgressLoad(EndpointsNamed(p[m], z), EndpointsNamed(q[m], z));
    }
  }

  lemma NodeLoad(p: Provider, rest: seq<string>, m: string, z: string)
    requires (forall k :: k in rest ==> k in p) && m in p
    ensures ToLb(EndpointsNamed(GlobalServices(p, rest) + EgressServices(p[m]), z)) ==
              ToLb(EndpointsNamed(GlobalServices(p, rest), z)) + ToLb(EgressEndpoints(EndpointsNamed(p[m], z)))
  {
    EndpointsNamedConcat(GlobalServices(p, rest), EgressServices(p[m]), z);
    EgressNamed(p[m], z);
    ToLbConcat(EndpointsNamed(GlobalServices(p, rest), z), EgressEndpoints(EndpointsNamed(p[m], z)));
  }

  predicate IsLocal(z: string) { |z| >= 6 && LocalName(z[6..]) == z }

  lemma {:induction false} LocalsElsewhere(svcs: seq<Service>, z: string)
    requires !IsLocal(z)
    ensures EndpointsNamed(Locals(svcs), z) == []
  {
    if svcs != [] {
      var d := svcs[|svcs| - 1].name;
      LocalsElsewhere(svcs[..|svcs| - 1], z);
      LocalsLast(svcs);
      assert LocalName(d)[6..] == d;
    }
  }

  lemma LocalsLoad(a: seq<Service>, b: seq<Service>, z: string)
    requires SameLoad(a, b)
    ensures ToLb(EndpointsNamed(Locals(a), z)) == ToLb(EndpointsNamed(Locals(b), z))
  {
    if IsLocal(z) {
      LocalNamed(a, z[6..]);
      LocalNamed(b, z[6..]);
    } else {
      LocalsElsewhere(a, z);
      LocalsElsewhere(b, z);
    }
  }

  lemma LocalsNames(svcs: seq<Service>)
    ensures Names(Locals(svcs)) == set x | x in Names(svcs) :: LocalName(x)
  {
    forall i | 0 <= i < |svcs| ensures Locals(svcs)[i].name == LocalName(svcs[i].name) { }
    forall x | x in Names(svcs) ensures LocalName(x) in Names(Locals(svcs)) {
      var i :| 0 <= i < |svcs| && svcs[i].name == x;
      assert Locals(svcs)[i].name == LocalName(x);
    }
  }

  lemma SameAllNames(p: Provider, q: Provider)
    requires SameLoads(p, q)
    ensures AllNames(p) == AllNames(q)
  {
    forall m | m in p ensures Names(p[m]) == Names(q[m]) { assert SameLoad(p[m], q[m]); }
    forall x ensures x in AllNames(p) <==> x in AllNames(q) {
      assert x in AllNames(p) <==> exists m :: m in p && x in Names(p[m]);
      assert x in AllNames(q) <==> exists m :: m in q && x in Names(q[m]);
    }
  }

  lemma SameEndpoints(m: NodeState, n: NodeState)
    requires NodeOk(m) && NodeOk(n) && m.endpoints.Keys == n.endpoints.Keys
    requires forall z :: Lbs(m.endpoints, z) == Lbs(n.endpoints, z)
    ensures m.endpoints == n.endpoints
  {
    forall z | z in m.endpoints ensures m.endpoints[z] == n.endpoints[z] {
      assert Lbs(m.endpoints, z) == Lbs(n.endpoints, z);
      assert m.endpoints[z] == LoadAssignment(z, Lbs(m.endpoints, z));
      assert n.endpoints[z] == LoadAssignment(z, Lbs(n.endpoints, z));
    }
  }

  lemma SameLbsSameEndpoints(p: Provider, order: seq<string>, q: Provider, o: seq<string>, n: string)
    requires Ordering(order, p.Keys) && Ordering(o, q.Keys) && n in p && n in q
    requires forall z ::
               ToLb(EndpointsNamed(GlobalServices(p, order), z)) == ToLb(EndpointsNamed(GlobalServices(q, o), z))
    requires forall z :: ToLb(EndpointsNamed(Locals(p[n]), z)) == ToLb(EndpointsNamed(Locals(q[n]), z))
    requires AllNames(p) + Names(Locals(p[n])) == AllNames(q) + Names(Locals(q[n]))
    ensures NodeOf(p, order, n).endpoints == NodeOf(q, o, n).endpoints
  {
    var m, m' := NodeOf(p, order, n), NodeOf(q, o, n);
    forall z ensures Lbs(m.endpoints, z) == Lbs(m'.endpoints, z) {
      SidecarEndpoints(p, order, n, z);
      SidecarEndpoints(q, o, n, z);
    }
    SidecarEndpoints(p, order, n, "");
    SidecarEndpoints(q, o, n, "");
    SameEndpoints(m, m');
  }

  /** Providers that differ only in how endpoints are spread over entries of one name, and in annotations other than
      weights, compile to the same load assignments, for every node. */
  lemma SameLoadsSameEndpoints(p: Provider, q: Provider, order: seq<string>, n: string)
    requires SameLoads(p, q) && Ordering(order, p.Keys) && n in p
    ensures NodeOf(p, order, n).endpoints == NodeOf(q, order, n).endpoints
  {
    assert SameLoad(p[n], q[n]);
    forall z
      ensures ToLb(EndpointsNamed(GlobalServices(p, order), z)) == ToLb(EndpointsNamed(GlobalServices(q, order), z))
      ensures ToLb(EndpointsNamed(Locals(p[n]), z)) == ToLb(EndpointsNamed(Locals(q[n]), z))
    {
      GlobalLoad(p, q, order, z);
      LocalsLoad(p[n], q[n], z);
    }
    SameAllNames(p, q);
    LocalsNames(p[n]);
    LocalsNames(q[n]);
    SameLbsSameEndpoints(p, order, q, order, n);
  }

  /******* A service in two halves *******/

  /** One service in two halves: the same endpoints, in the same order, as the whole. */
  lemma Halves(x: string, a: Endpoint, b: Endpoint, z: string)
    ensures EndpointsNamed([Service(x, [a]), Service(x, [b])], z) == EndpointsNamed([Service(x, [a, b])], z)
  {
    var halves, whole := [Service(x, [a]), Service(x, [b])], [Service(x, [a, b])];
    assert halves[..1] == [Service(x, [a])] && [Service(x, [a])][..0] == [] && whole[..0] == [];
    assert EndpointsNamed([Service(x, [a])], z) == [] + (if x == z then [a] else []);
    assert EndpointsNamed(halves, z) == EndpointsNamed([Service(x, [a])], z) + (if x == z then [b] else []);
    assert EndpointsNamed(whole, z) == [] + (if x == z then [a, b] else []);
  }

  lemma HalvesSameLoad(x: string, a: Endpoint, b: Endpoint)
    ensures SameLoad([Service(x, [a]), Service(x, [b])], [Service(x, [a, b])])
  {
    var halves, whole := [Service(x, [a]), Service(x, [b])], [Service(x, [a, b])];
    assert halves[0].name == x && whole[0].name == x;
    assert Names(halves) == {x} && Names(whole) == {x};
    forall z ensures EndpointsNamed(halves, z) == EndpointsNamed(whole, z) { Halves(x, a, b, z); }
  }

  /** A node reports a service in two halves, or in one piece: one version, and other listeners, whatever the rest. */
  lemma HalvesShareVersion(hash: Hash, p: Provider, q: Provider, order: seq<string>, n: string, x: string,
                           a: Endpoint, b: Endpoint) returns (v: string)
    requires Ordering(order, p.Keys) && n in p && p[n] == [Service(x, [a]), Service(x, [b])]
    requires q == p[n := [Service(x, [a, b])]]
    ensures SnapshotBy(hash, NodeOf(p, order, n), SnapshotFrom(v, NodeOf(p, order, n)))
    ensures SnapshotBy(hash, NodeOf(q, order, n), SnapshotFrom(v, NodeOf(q, order, n)))
    ensures Index(NodeOf(p, order, n).listeners) != Index(NodeOf(q, order, n).listeners)
  {
    HalvesSameLoad(x, a, b);
    SameLoadsSameEndpoints(p, q, order, n);
    v := OneVersion(hash, NodeOf(p, order, n), NodeOf(q, order, n));
    ListenersAgreeExactly(p, order, q, order, n);
  }

  /******* A changed annotation *******/

  /** The annotations of one endpoint change, but not its weight. */
  predicate Annotated(p: Provider, q: Provider, n: string, x: string, e: Endpoint, ann: Annotations) {
    && n in p && p[n] == [Service(x, [e])] && q == p[n := [Service(x, [e.(annotations := ann)])]]
    && Weight(ann) == Weight(e.annotations)
  }

  lemma AnnotatedSameLoad(x: string, e: Endpoint, ann: Annotations)
    requires Weight(ann) == Weight(e.annotations)
    ensures SameLoad([Service(x, [e])], [Service(x, [e.(annotations := ann)])])
  {
    var e' := e.(annotations := ann);
    forall z ensures ToLb(EndpointsNamed([Service(x, [e])], z)) == ToLb(EndpointsNamed([Service(x, [e'])], z)) {
      OneNamed(x, e, z);
      OneNamed(x, e', z);
    }
    assert [Service(x, [e])][0].name == x && [Service(x, [e'])][0].name == x;
    assert Names([Service(x, [e])]) == {x} && Names([Service(x, [e'])]) == {x};
  }

  lemma OneNamed(x: string, e: Endpoint, z: string)
    ensures EndpointsNamed([Service(x, [e])], z) == if x == z then [e] else []
  {
    assert [Service(x, [e])][..0] == [];
  }

  lemma OneConfig(x: string, e: Endpoint)
    ensures ConfigOf(Service(x, [e])) == ParseClusterAnnotations(e.annotations)
  {
    assert [e][..0] == [];
    assert Merged([e]) == map[] + e.annotations;
  }

  /** Such a change keeps the version, and changes the listeners exactly if it changes the filters that the annotations
      stand for, whatever the rest of the mesh. */
  lemma AnnotationsShareVersion(hash: Hash, p: Provider, q: Provider, order: seq<string>, n: string, x: string,
                                e: Endpoint, ann: Annotations) returns (v: string)
    requires Ordering(order, p.Keys) && Annotated(p, q, n, x, e, ann)
    ensures SnapshotBy(hash, NodeOf(p, order, n), SnapshotFrom(v, NodeOf(p, order, n)))
    ensures SnapshotBy(hash, NodeOf(q, order, n), SnapshotFrom(v, NodeOf(q, order, n)))
    ensures Index(NodeOf(p, order, n).listeners) == Index(NodeOf(q, order, n).listeners) <==>
              SameFilterConfig(ParseClusterAnnotations(e.annotations), ParseClusterAnnotations(ann))
  {
    AnnotatedSameLoad(x, e, ann);
    SameLoadsSameEndpoints(p, q, order, n);
    v := OneVersion(hash, NodeOf(p, order, n), NodeOf(q, order, n));
    ListenersAgreeExactly(p, order, q, order, n);
    OneConfig(x, e);
    OneConfig(x, e.(annotations := ann));
  }

  lemma KeysDiffer()
    ensures FAULT_INJECT != WEIGHT && HEALTH_PATH != WEIGHT && FAULT_INJECT != HEALTH_PATH
  {
    assert FAULT_INJECT[0] == 'f' && WEIGHT[0] == 'e' && HEALTH_PATH[0] == 'h';
  }

  /** Enabling a fault on an endpoint changes the listeners of its node and not the version. */
  lemma FaultSharesVersion(hash: Hash, p: Provider, order: seq<string>, n: string, x: string, e: Endpoint, on: string)
      returns (q: Provider, v: string)
    requires Ordering(order, p.Keys) && n in p && p[n] == [Service(x, [e])] && FAULT_INJECT !in e.annotations
    ensures q == p[n := [Service(x, [e.(annotations := e.annotations[FAULT_INJECT := on])])]]
    ensures SnapshotBy(hash, NodeOf(p, order, n), SnapshotFrom(v, NodeOf(p, order, n)))
    ensures SnapshotBy(hash, NodeOf(q, order, n), SnapshotFrom(v, NodeOf(q, order, n)))
    ensures Index(NodeOf(p, order, n).listeners) != Index(NodeOf(q, order, n).listeners)
  {
    KeysDiffer();
    var ann := e.annotations[FAULT_INJECT := on];
    q := p[n := [Service(x, [e.(annotations := ann)])]];
    v := AnnotationsShareVersion(hash, p, q, order, n, x, e, ann);
    var c, d := ParseClusterAnnotations(e.annotations), ParseClusterAnnotations(ann);
    assert |Faults(c.fault)| == 0 && |Faults(d.fault)| == 1;
  }

  /** Changing the health check path changes the listeners of its node, and in a mesh of one node the clusters as well,
      and not the version. */
  lemma PathSharesVersion(hash: Hash, p: Provider, order: seq<string>, n: string, x: string, e: Endpoint, path: string)
      returns (q: Provider, v: string)
    requires Ordering(order, p.Keys) && n in p && p[n] == [Service(x, [e])]
    requires path != ParseClusterAnnotations(e.annotations).health.path
    ensures q == p[n := [Service(x, [e.(annotations := e.annotations[HEALTH_PATH := path])])]]
    ensures SnapshotBy(hash, NodeOf(p, order, n), SnapshotFrom(v, NodeOf(p, order, n)))
    ensures SnapshotBy(hash, NodeOf(q, order, n), SnapshotFrom(v, NodeOf(q, order, n)))
    ensures Index(NodeOf(p, order, n).listeners) != Index(NodeOf(q, order, n).listeners)
    ensures p.Keys == {n} ==> NodeOf(p, order, n).clusters != NodeOf(q, order, n).clusters
  {
    KeysDiffer();
    var ann := e.annotations[HEALTH_PATH := path];
    q := p[n := [Service(x, [e.(annotations := ann)])]];
    v := AnnotationsShareVersion(hash, p, q, order, n, x, e, ann);
    assert ParseClusterAnnotations(ann).health.path == path;
    if p.Keys == {n} {
      PathChangesClusters(p, q, order, n, x, e, ann);
    }
  }

  lemma PathChangesClusters(p: Provider, q: Provider, order: seq<string>, n: string, x: string, e: Endpoint,
                            ann: Annotations)
    requires p.Keys == {n} && Ordering(order, p.Keys) && Annotated(p, q, n, x, e, ann)
    requires ParseClusterAnnotations(ann).health.path != ParseClusterAnnotations(e.annotations).health.path
    ensures NodeOf(p, order, n).clusters != NodeOf(q, order, n).clusters
  {
    OneNodeFirst(p, order, n, x, e);
    OneNodeFirst(q, order, n, x, e.(annotations := ann));
    OtherPath(MetServices(p, order, n), MetServices(q, order, n), x);
    OtherClusters(p, order, q, order, n, x);
  }

  lemma OtherPath(a: seq<Service>, b: seq<Service>, x: string)
    requires FirstNamed(a, x).Some? && FirstNamed(b, x).Some?
    requires ConfigOf(FirstNamed(a, x).value).health.path != ConfigOf(FirstNamed(b, x).value).health.path
    ensures !SameSettings(a, b, x)
  {
  }

  lemma OtherClusters(p: Provider, order: seq<string>, q: Provider, o: seq<string>, n: string, x: string)
    requires Ordering(order, p.Keys) && Ordering(o, q.Keys) && n in p && n in q
    requires !SameSettings(MetServices(p, order, n), MetServices(q, o, n), x)
    ensures NodeOf(p, order, n).clusters != NodeOf(q, o, n).clusters
  {
    ClustersAgreeExactly(p, order, q, o, n);
  }

  lemma OneNodeFirst(p: Provider, order: seq<string>, n: string, x: string, e: Endpoint)
    requires p.Keys == {n} && Ordering(order, p.Keys) && p[n] == [Service(x, [e])]
    ensures var s := FirstNamed(MetServices(p, order, n), x);
            s.Some? && ConfigOf(s.value) == ParseClusterAnnotations(e.annotations)
  {
    OnlyOrder(order, n);
    assert [n][..0] == [];
    assert GlobalServices(p, [n]) == [] + EgressServices(p[n]);
    var s := Service(x, [EgressEndpoint(e)]);
    assert EgressEndpoints([e]) == [EgressEndpoint(e)];
    assert EgressServices(p[n]) == [s];
    assert [s][..0] == [];
    assert FirstNamed([s], x) == Some(s);
    FirstNamedConcat([s], Locals(p[n]), x);
    OneConfig(x, EgressEndpoint(e));
  }

  lemma OnlyOrder(order: seq<string>, n: string)
    requires Ordering(order, {n})
    ensures order == [n]
  {
    assert n in order;
    assert |order| > 1 ==> order[0] != order[1];
    forall i | 0 <= i < |order| ensures order[i] == n { assert order[i] in order; }
  }

  /******* Another order *******/

  lemma MetInOrder(p: Provider, m: string, n: string)
    requires m in p && n in p
    ensures GlobalServices(p, [m, n]) == EgressServices(p[m]) + EgressServices(p[n])
    ensures MetNames(p, [m, n]) == NameSeq(p[m]) + NameSeq(p[n])
  {
    assert [m, n][..1] == [m] && [m][..0] == [];
    assert GlobalServices(p, [m]) == [] + EgressServices(p[m]);
    MetNamesMore(p, [m]);
    MetNamesMore(p, [m, n]);
    assert MetNames(p, []) == [];
  }

  lemma EitherEmpty(a: seq<Service>, b: seq<Service>, z: string)
    requires Names(a) !! Names(b)
    ensures EndpointsNamed(a, z) == [] || EndpointsNamed(b, z) == []
  {
    NamedNonempty(a, z);
    NamedNonempty(b, z);
    if EndpointsNamed(a, z) != [] {
      var i :| 0 <= i < |a| && a[i].name == z && a[i].endpoints != [];
      assert z in Names(a);
    }
  }

  lemma OrderSameGlobal(p: Provider, m: string, n: string, z: string)
    requires m in p && n in p && Names(p[m]) !! Names(p[n])
    ensures EndpointsNamed(GlobalServices(p, [m, n]), z) == EndpointsNamed(GlobalServices(p, [n, m]), z)
  {
    MetInOrder(p, m, n);
    MetInOrder(p, n, m);
    EndpointsNamedConcat(EgressServices(p[m]), EgressServices(p[n]), z);
    EndpointsNamedConcat(EgressServices(p[n]), EgressServices(p[m]), z);
    EgressNamed(p[m], z);
    EgressNamed(p[n], z);
    EitherEmpty(p[m], p[n], z);
  }

  lemma TwoOrders(m: string, n: string)
    requires m != n
    ensures Ordering([m, n], {m, n}) && Ordering([n, m], {m, n})
  {
  }

  lemma OrderSameEndpoints(p: Provider, m: string, n: string, at: string)
    requires m != n && p.Keys == {m, n} && Names(p[m]) !! Names(p[n]) && at in p
    requires Ordering([m, n], p.Keys) && Ordering([n, m], p.Keys)
    ensures NodeOf(p, [m, n], at).endpoints == NodeOf(p, [n, m], at).endpoints
  {
    forall z
      ensures EndpointsNamed(GlobalServices(p, [m, n]), z) == EndpointsNamed(GlobalServices(p, [n, m]), z)
    {
      OrderSameGlobal(p, m, n, z);
    }
    SameLbsSameEndpoints(p, [m, n], p, [n, m], at);
  }

  lemma OtherFirst(a: seq<string>, b: seq<string>)
    requires a != [] && b != [] && Elements(a) !! Elements(b)
    ensures !SameFirstOrder(a + b, b + a)
  {
    var x, y := a[0], b[0];
    assert x in Elements(a) && y in Elements(b);
    assert (a + b)[0] == x && (b + a)[0] == y;
    assert (a + b)[..1] == [x] && (b + a)[..1] == [y];
    assert x in a + b && y in a + b;
    assert Before(a + b, x, y) && Before(b + a, y, x);
    NotBoth(b + a, x, y);
  }

  lemma NotBoth(names: seq<string>, x: string, y: string)
    ensures Before(names, y, x) ==> !Before(names, x, y)
  {
  }

  /** One and the same provider, with a service on each of two nodes, visited in the other order: one version, and other
      routes, on either node. */
  lemma OrderSharesVersion(hash: Hash, p: Provider, m: string, n: string, at: string) returns (v: string)
    requires m != n && p.Keys == {m, n} && p[m] != [] && p[n] != [] && Names(p[m]) !! Names(p[n]) && at in p
    ensures Ordering([m, n], p.Keys) && Ordering([n, m], p.Keys)
    ensures SnapshotBy(hash, NodeOf(p, [m, n], at), SnapshotFrom(v, NodeOf(p, [m, n], at)))
    ensures SnapshotBy(hash, NodeOf(p, [n, m], at), SnapshotFrom(v, NodeOf(p, [n, m], at)))
    ensures NodeOf(p, [m, n], at).routes != NodeOf(p, [n, m], at).routes
  {
    TwoOrders(m, n);
    OrderSameEndpoints(p, m, n, at);
    v := OneVersion(hash, NodeOf(p, [m, n], at), NodeOf(p, [n, m], at));
    RoutesAgreeExactly(p, [m, n], p, [n, m], at);
    MetInOrder(p, m, n);
    MetInOrder(p, n, m);
    NameSeqElements(p[m]);
    NameSeqElements(p[n]);
    OtherFirst(NameSeq(p[m]), NameSeq(p[n]));
  }

  /******* A service called like a local cluster *******/

  lemma {:induction false} EmptyAddsNothing(p: Provider, m: string, l: Service, order: seq<string>, z: string)
    requires m in p && l.endpoints == [] && forall k :: k in order ==> k in p
    ensures EndpointsNamed(GlobalServices(p[m := p[m] + [l]], order), z) == EndpointsNamed(GlobalServices(p, order), z)
  {
    var q := p[m := p[m] + [l]];
    if order != [] {
      var rest, k := order[..|order| - 1], order[|order| - 1];
      EmptyAddsNothing(p, m, l, rest, z);
      EndpointsNamedConcat(GlobalServices(p, rest), EgressServices(p[k]), z);
      EndpointsNamedConcat(GlobalServices(q, rest), EgressServices(q[k]), z);
      EgressNamed(p[k], z);
      EgressNamed(q[k], z);
      EndpointsNamedConcat(p[m], [l], z);
      assert [l][..0] == [];
      assert EndpointsNamed([l], z) == [];
    }
  }

  lemma NamesWith(p: Provider, m: string, l: Service)
    requires m in p
    ensures AllNames(p[m := p[m] + [l]]) == AllNames(p) + {l.name}
  {
    var q := p[m := p[m] + [l]];
    assert q[m][|p[m]|] == l;
    forall x ensures x in AllNames(q) <==> x in AllNames(p) || x == l.name {
      if k, i :| k in p && 0 <= i < |p[k]| && p[k][i].name == x { assert q[k][i].name == x; }
      if k, i :| k in q && 0 <= i < |q[k]| && q[k][i].name == x { assert x == l.name || p[k][i].name == x; }
    }
  }

  /** Some other node reports a service without endpoints that is called like a local cluster of node n: one version,
      and the egress route of n serves one service more. */
  lemma LocalNameSharesVersion(hash: Hash, p: Provider, order: seq<string>, n: string, m: string, x: string)
      returns (q: Provider, v: string)
    requires Ordering(order, p.Keys) && n in p && m in p && m != n && x in Names(p[n]) && LocalName(x) !in AllNames(p)
    ensures q == p[m := p[m] + [Service(LocalName(x), [])]]
    ensures SnapshotBy(hash, NodeOf(p, order, n), SnapshotFrom(v, NodeOf(p, order, n)))
    ensures SnapshotBy(hash, NodeOf(q, order, n), SnapshotFrom(v, NodeOf(q, order, n)))
    ensures AllNames(q) == AllNames(p) + {LocalName(x)}
    ensures NodeOf(p, order, n).routes != NodeOf(q, order, n).routes
  {
    var l := Service(LocalName(x), []);
    q := p[m := p[m] + [l]];
    NamesWith(p, m, l);
    LocalNameSameEndpoints(p, order, n, m, x, q);
    v := OneVersion(hash, NodeOf(p, order, n), NodeOf(q, order, n));
    RoutesAgreeExactly(p, order, q, order, n);
    MetNamesElements(p, order);
    MetNamesElements(q, order);
  }

  lemma LocalNameSameEndpoints(p: Provider, order: seq<string>, n: string, m: string, x: string, q: Provider)
    requires Ordering(order, p.Keys) && n in p && m in p && m != n && x in Names(p[n])
    requires q == p[m := p[m] + [Service(LocalName(x), [])]]
    ensures NodeOf(p, order, n).endpoints == NodeOf(q, order, n).endpoints
  {
    var l := Service(LocalName(x), []);
    NamesWith(p, m, l);
    LocalsNames(p[n]);
    forall z ensures EndpointsNamed(GlobalServices(q, order), z) == EndpointsNamed(GlobalServices(p, order), z) {
      EmptyAddsNothing(p, m, l, order, z);
    }
    SameLbsSameEndpoints(p, order, q, order, n);
  }
}
