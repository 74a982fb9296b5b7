/** What clusters and filters say, read off the annotations of the provider's endpoints: every field with its key, its
    default and its unit. */
module Settings {
  import opened Xds
  import opened Nonces
  import opened Config
  import opened Mesh
  import opened Routing

  /******* Annotations of a service *******/

  ghost predicate NoneHas(eps: seq<Endpoint>, key: string) {
    forall i :: 0 <= i < |eps| ==> key !in eps[i].annotations
  }

  /** The last endpoint that has the key has this value for it. */
  ghost predicate LastHas(eps: seq<Endpoint>, key: string, v: string) {
    exists i :: 0 <= i < |eps| && key in eps[i].annotations && eps[i].annotations[key] == v &&
                forall j :: i < j < |eps| ==> key !in eps[j].annotations
  }

  /** In the merged annotations later endpoints win. */
  lemma {:induction false} LaterWins(eps: seq<Endpoint>, key: string)
    ensures key in Merged(eps) <==> !NoneHas(eps, key)
    ensures forall v :: LastHas(eps, key, v) <==> key in Merged(eps) && Merged(eps)[key] == v
  {
    if eps != [] {
      var last := |eps| - 1;
      LaterWins(eps[..last], key);
      forall v ensures LastHas(eps, key, v) <==> key in Merged(eps) && Merged(eps)[key] == v {
        LastHasMore(eps, key, v);
      }
      assert NoneHas(eps, key) <==> NoneHas(eps[..last], key) && key !in eps[last].annotations by {
        assert forall i :: 0 <= i < last ==> eps[..last][i] == eps[i];
      }
    }
  }

  lemma LastHasMore(eps: seq<Endpoint>, key: string, v: string)
    requires eps != []
    ensures var last := |eps| - 1;
            LastHas(eps, key, v) <==>
              if key in eps[last].annotations then eps[last].annotations[key] == v else LastHas(eps[..last], key, v)
  {
    var last := |eps| - 1;
    var rest := eps[..last];
    assert forall i :: 0 <= i < last ==> rest[i] == eps[i];
    if key !in eps[last].annotations && LastHas(rest, key, v) {
      var i :| 0 <= i < |rest| && key in rest[i].annotations && rest[i].annotations[key] == v &&
               forall j :: i < j < |rest| ==> key !in rest[j].annotations;
      assert key in eps[i].annotations && eps[i].annotations[key] == v;
    }
    if LastHas(eps, key, v) {
      var i :| 0 <= i < |eps| && key in eps[i].annotations && eps[i].annotations[key] == v &&
               forall j :: i < j < |eps| ==> key !in eps[j].annotations;
      if i < last { assert key in rest[i].annotations; }
    }
  }

  /******* Fields *******/

  /** A number: the default if no endpoint has the key or the last that has it has no positive number; otherwise its low
      32 bits. */
  ghost predicate IsNumber(eps: seq<Endpoint>, key: string, default: nat, f: nat) {
    && (NoneHas(eps, key) ==> f == default)
    && (forall v :: LastHas(eps, key, v) && BadNumber(v) ==> f == default)
    && (forall v :: LastHas(eps, key, v) && !BadNumber(v) ==> f == Atoi(v).value % 0x1_0000_0000)
    && (forall m: nat :: 0 < m < 0x1_0000_0000 && LastHas(eps, key, Decimal(m)) ==> f == m)
  }

  /** A duration of so many milliseconds, in nanoseconds and 64 bits. */
  ghost predicate IsDuration(eps: seq<Endpoint>, key: string, default: nat, f: int) {
    && (NoneHas(eps, key) ==> f == default * 1_000_000)
    && (forall v :: LastHas(eps, key, v) && BadNumber(v) ==> f == default * 1_000_000)
    && (forall v :: LastHas(eps, key, v) && !BadNumber(v) ==>
          -MAX_INT64 - 1 <= f <= MAX_INT64 && (Atoi(v).value * 1_000_000 - f) % 0x1_0000_0000_0000_0000 == 0)
    && (forall m: nat :: 0 < m <= 9_223_372_036_854 && LastHas(eps, key, Decimal(m)) ==> f == m * 1_000_000)
  }

  ghost predicate IsText(eps: seq<Endpoint>, key: string, default: string, f: string) {
    && (NoneHas(eps, key) ==> f == default)
    && (forall v :: LastHas(eps, key, v) ==> f == v)
  }

  lemma NumberOf(ann: Annotations, key: string, default: nat, m: nat)
    ensures key !in ann || BadNumber(ann[key]) ==> GetUInt32(ann, key, default) == default
    ensures key in ann && !BadNumber(ann[key]) ==> GetUInt32(ann, key, default) == Atoi(ann[key]).value % 0x1_0000_0000
    ensures key in ann && ann[key] == Decimal(m) && 0 < m < 0x1_0000_0000 ==> GetUInt32(ann, key, default) == m
  {
    if m < 0x1_0000_0000 { AtoiDecimal(m); }
  }

  lemma NumberReads(eps: seq<Endpoint>, key: string, default: nat)
    ensures IsNumber(eps, key, default, GetUInt32(Merged(eps), key, default))
  {
    LaterWins(eps, key);
    var ann := Merged(eps);
    NumberIs(eps, ann, key, default, GetUInt32(ann, key, default));
  }

  lemma NumberIs(eps: seq<Endpoint>, ann: Annotations, key: string, default: nat, f: nat)
    requires key in ann <==> !NoneHas(eps, key)
    requires forall v :: LastHas(eps, key, v) <==> key in ann && ann[key] == v
    requires f == GetUInt32(ann, key, default)
    ensures IsNumber(eps, key, default, f)
  {
    NumberOf(ann, key, default, 0);
    forall m: nat | 0 < m < 0x1_0000_0000 && LastHas(eps, key, Decimal(m)) ensures f == m {
      NumberOf(ann, key, default, m);
    }
  }

  lemma WrapsExactly(n: int)
    ensures -MAX_INT64 - 1 <= WrapInt64(n) <= MAX_INT64 && (n - WrapInt64(n)) % 0x1_0000_0000_0000_0000 == 0
    ensures -MAX_INT64 - 1 <= n <= MAX_INT64 ==> WrapInt64(n) == n
  {
    var m := n + MAX_INT64 + 1;
    assert n - WrapInt64(n) == m - m % 0x1_0000_0000_0000_0000;
  }

  lemma DurationReads(eps: seq<Endpoint>, key: string, default: nat)
    requires default <= 1_000_000
    ensures IsDuration(eps, key, default, GetMilliseconds(Merged(eps), key, default))
  {
    LaterWins(eps, key);
    WrapsExactly(default * 1_000_000);
    forall v | LastHas(eps, key, v) && !BadNumber(v)
      ensures var f := GetMilliseconds(Merged(eps), key, default);
              -MAX_INT64 - 1 <= f <= MAX_INT64 && (Atoi(v).value * 1_000_000 - f) % 0x1_0000_0000_0000_0000 == 0
    {
      WrapsExactly(Atoi(v).value * 1_000_000);
    }
    forall m: nat | 0 < m <= 9_223_372_036_854 && LastHas(eps, key, Decimal(m))
      ensures GetMilliseconds(Merged(eps), key, default) == m * 1_000_000
    {
      AtoiDecimal(m);
      WrapsExactly(m * 1_000_000);
    }
  }

  lemma TextReads(eps: seq<Endpoint>, key: string, default: string)
    ensures IsText(eps, key, default, GetString(Merged(eps), key, default))
  {
    LaterWins(eps, key);
  }

  /******* Clusters *******/

  /** The eight fields of a cluster. */
  ghost predicate ClusterReads(eps: seq<Endpoint>, s: ClusterSettings) {
    && IsDuration(eps, "healthcheck.timeout", 3000, s.timeout)
    && IsDuration(eps, "healthcheck.interval", 10000, s.interval)
    && IsText(eps, "healthcheck.path", "/healthz", s.path)
    && (exists port: nat ::
          IsNumber(eps, "healthcheck.port", 0, port) && s.altPort == if port == 0 then None else Some(port))
    && IsNumber(eps, "circuit-breaker.max-connections", 1000, s.maxConnections)
    && IsNumber(eps, "circuit-breaker.max-pending", 1000, s.maxPendingRequests)
    && IsNumber(eps, "circuit-breaker.max-requests", 1000, s.maxRequests)
    && IsNumber(eps, "circuit-breaker.max-retries", 3, s.maxRetries)
  }

  lemma ClusterForReads(s: Service)
    ensures ClusterFor(s).EnvoyCluster? && ClusterFor(s).name == s.name && ClusterFor(s).eds
    ensures ClusterFor(s).serviceName == "" && ClusterReads(s.endpoints, ClusterFor(s).settings)
  {
    var eps := s.endpoints;
    DurationReads(eps, "healthcheck.timeout", 3000);
    DurationReads(eps, "healthcheck.interval", 10000);
    TextReads(eps, "healthcheck.path", "/healthz");
    NumberReads(eps, "healthcheck.port", 0);
    NumberReads(eps, "circuit-breaker.max-connections", 1000);
    NumberReads(eps, "circuit-breaker.max-pending", 1000);
    NumberReads(eps, "circuit-breaker.max-requests", 1000);
    NumberReads(eps, "circuit-breaker.max-retries", 3);
  }

  /** No earlier service of the list has the name of service i. */
  predicate FirstOfName(svcs: seq<Service>, i: nat)
    requires i < |svcs|
  {
    forall j :: 0 <= j < i ==> svcs[j].name != svcs[i].name
  }

  lemma {:induction false} FirstNamedAt(svcs: seq<Service>, i: nat)
    requires i < |svcs| && FirstOfName(svcs, i)
    ensures FirstNamed(svcs, svcs[i].name) == Some(svcs[i])
  {
    var last := |svcs| - 1;
    if i < last {
      FirstNamedAt(svcs[..last], i);
    }
  }

  /** Clusters that are there stay; of services of one name the first fixes what the cluster says. */
  ghost predicate ServicesRead(n: NodeState, svcs: seq<Service>, clusters: map<string, Resource>) {
    && (forall x :: x in n.clusters ==> x in clusters && clusters[x] == n.clusters[x])
    && (forall i :: 0 <= i < |svcs| && svcs[i].name !in n.clusters && FirstOfName(svcs, i) ==>
          && svcs[i].name in clusters && clusters[svcs[i].name].EnvoyCluster?
          && ClusterReads(svcs[i].endpoints, clusters[svcs[i].name].settings))
  }

  lemma ServiceReads(n: NodeState, svcs: seq<Service>, i: nat)
    requires i < |svcs| && svcs[i].name !in n.clusters && FirstOfName(svcs, i)
    ensures var c := ClusterAt(AddServices(n, svcs), svcs[i].name);
            c.Some? && c.value.EnvoyCluster? && ClusterReads(svcs[i].endpoints, c.value.settings)
  {
    FirstFixesConfig(n, svcs, svcs[i].name);
    FirstNamedAt(svcs, i);
    ClusterForReads(svcs[i]);
  }

  lemma AddServicesReads(n: NodeState, svcs: seq<Service>)
    ensures ServicesRead(n, svcs, AddServices(n, svcs).clusters)
  {
    var m := AddServices(n, svcs);
    forall x | x in n.clusters ensures x in m.clusters && m.clusters[x] == n.clusters[x] {
      FirstFixesConfig(n, svcs, x);
    }
    forall i | 0 <= i < |svcs| && svcs[i].name !in n.clusters && FirstOfName(svcs, i)
      ensures svcs[i].name in m.clusters && m.clusters[svcs[i].name].EnvoyCluster?
      ensures ClusterReads(svcs[i].endpoints, m.clusters[svcs[i].name].settings)
    {
      ServiceReads(n, svcs, i);
    }
  }

  /** Every cluster of a sidecar says what the annotations of the first service met under its name say. */
  lemma SidecarClusterReads(p: Provider, order: seq<string>, n: string, x: string)
    requires Ordering(order, p.Keys) && n in p
    ensures var s, c := FirstNamed(MetServices(p, order, n), x), ClusterAt(NodeOf(p, order, n), x);
            && (c.Some? <==> s.Some?)
            && (s.Some? ==> c.value.EnvoyCluster? && c.value.name == x && c.value.eds && c.value.serviceName == "" &&
                            ClusterReads(s.value.endpoints, c.value.settings))
  {
    SidecarClusterConfig(p, order, n, x);
    var s := FirstNamed(MetServices(p, order, n), x);
    if s.Some? { ClusterForReads(s.value); }
  }

  /******* Filters *******/

  /** The health check filter of a service: its cache time and its path. */
  ghost predicate HealthReads(eps: seq<Endpoint>, f: HttpFilter) {
    f.HealthCheck? && IsDuration(eps, "healthcheck.cache", 30000, f.cacheTime) &&
    IsText(eps, "healthcheck.path", "/healthz", f.path)
  }

  /** The fault filter of a service: an abort of a code and a chance, if both are positive, and likewise a delay. */
  ghost predicate FaultReads(eps: seq<Endpoint>, f: HttpFilter) {
    && f.Fault?
    && (exists code: nat, chance: nat ::
          && IsNumber(eps, "fault.abort.code", 503, code) && IsNumber(eps, "fault.abort.percent", 0, chance)
          && (f.abort.Some? <==> code > 0 && chance > 0)
          && (f.abort.Some? ==> f.abort.value.code == code && f.abort.value.percent == chance))
    && (exists duration, chance: nat ::
          && IsDuration(eps, "fault.delay.duration", 30, duration) && IsNumber(eps, "fault.delay.percent", 0, chance)
          && (f.delay.Some? <==> duration > 0 && chance > 0)
          && (f.delay.Some? ==> f.delay.value.duration == duration && f.delay.value.percent == chance))
  }

  /** What is injected for a service: a health check filter, and in front of it a fault filter, exactly if some endpoint
      has the annotation. */
  ghost predicate InjectedFor(eps: seq<Endpoint>, filters: seq<HttpFilter>) {
    if NoneHas(eps, "fault.inject") then |filters| == 1 && HealthReads(eps, filters[0])
    else |filters| == 2 && FaultReads(eps, filters[0]) && HealthReads(eps, filters[1])
  }

  lemma HealthFilterReads(s: Service)
    ensures HealthReads(s.endpoints, HealthFilter(ConfigOf(s).health))
  {
    DurationReads(s.endpoints, "healthcheck.cache", 30000);
    TextReads(s.endpoints, "healthcheck.path", "/healthz");
  }

  lemma FaultFilterReads(s: Service)
    ensures FaultReads(s.endpoints, FaultFilter(ConfigOf(s).fault))
  {
    var c := ConfigOf(s).fault;
    NumberReads(s.endpoints, "fault.abort.code", 503);
    NumberReads(s.endpoints, "fault.abort.percent", 0);
    DurationReads(s.endpoints, "fault.delay.duration", 30);
    NumberReads(s.endpoints, "fault.delay.percent", 0);
    assert IsNumber(s.endpoints, "fault.abort.code", 503, c.abortCode);
    assert IsDuration(s.endpoints, "fault.delay.duration", 30, c.delayDuration);
  }

  /** What one service of the loop puts in front of the filters. */
  lemma InjectReads(filters: seq<HttpFilter>, s: Service) returns (part: seq<HttpFilter>)
    ensures InjectedFor(s.endpoints, part) && Inject(filters, s) == part + filters
  {
    part := InjectedBy(s);
    InjectedReads(s);
  }

  function InjectedBy(s: Service): seq<HttpFilter> { Faults(ConfigOf(s).fault) + [HealthFilter(ConfigOf(s).health)] }

  lemma InjectedReads(s: Service)
    ensures InjectedFor(s.endpoints, InjectedBy(s))
  {
    LaterWins(s.endpoints, "fault.inject");
    HealthFilterReads(s);
    FaultFilterReads(s);
  }

  /** Each service has its own part. */
  ghost predicate PartsRead(svcs: seq<Service>, parts: seq<seq<HttpFilter>>) {
    && |parts| == |svcs|
    && (svcs == [] ||
        var last := |svcs| - 1;
        PartsRead(svcs[..last], parts[..last]) && InjectedFor(svcs[last].endpoints, parts[last]))
  }

  lemma {:induction false} PartsReadAt(svcs: seq<Service>, parts: seq<seq<HttpFilter>>, i: nat)
    requires PartsRead(svcs, parts) && i < |svcs|
    ensures InjectedFor(svcs[i].endpoints, parts[i])
  {
    var last := |svcs| - 1;
    if i < last {
      PartsReadAt(svcs[..last], parts[..last], i);
      assert svcs[..last][i] == svcs[i] && parts[..last][i] == parts[i];
    }
  }

  /** The parts, the last one first. */
  function Backwards(parts: seq<seq<HttpFilter>>): seq<HttpFilter> {
    if parts == [] then [] else parts[|parts| - 1] + Backwards(parts[..|parts| - 1])
  }

  /** The filters of a list of services: for each service its own part, in reverse order of the services, and then the
      router. */
  lemma {:induction false} InjectAllReads(svcs: seq<Service>) returns (parts: seq<seq<HttpFilter>>)
    ensures PartsRead(svcs, parts) && InjectAll(svcs) == Backwards(parts) + [Router]
  {
    if svcs == [] {
      parts := [];
    } else {
      var rest, s := svcs[..|svcs| - 1], svcs[|svcs| - 1];
      var front := InjectAllReads(rest);
      var part := InjectReads(InjectAll(rest), s);
      parts := front + [part];
      assert parts[..|front|] == front && parts[|front|] == part;
      BackwardsMore(front, part);
      assert (part + Backwards(front)) + [Router] == part + (Backwards(front) + [Router]);
    }
  }

  lemma BackwardsMore(parts: seq<seq<HttpFilter>>, part: seq<HttpFilter>)
    ensures Backwards(parts + [part]) == part + Backwards(parts)
  {
    assert (parts + [part])[..|parts|] == parts;
  }

  /** The listeners of a sidecar: an ingress listener for the ingress route, with the filters that the annotations of
      the node's services say, and an egress listener for the egress route with a router alone. */
  lemma SidecarListenersRead(p: Provider, order: seq<string>, n: string) returns (parts: seq<seq<HttpFilter>>)
    requires (forall m :: m in order ==> m in p) && n in p
    ensures |parts| == |p[n]| && forall i :: 0 <= i < |p[n]| ==> InjectedFor(p[n][i].endpoints, parts[i])
    ensures NodeOf(p, order, n).listeners ==
              [EnvoyListener("default-ingress", [[NetworkFilter("envoy.http_connection_manager", Some("ingress_route"),
                                                                Backwards(parts) + [Router])]]),
               EnvoyListener("default-egress", [[NetworkFilter("envoy.http_connection_manager", Some("egress_route"),
                                                               [Router])]])]
  {
    parts := InjectAllReads(p[n]);
    forall i | 0 <= i < |p[n]| ensures InjectedFor(p[n][i].endpoints, parts[i]) { PartsReadAt(p[n], parts, i); }
  }

  /** The front proxy has one listener, for the ingress route, that authorizes before it routes. */
  lemma FrontListenersRead(p: Provider, order: seq<string>)
    requires forall m :: m in order ==> m in p
    ensures Front(p, order).listeners ==
              [EnvoyListener("", [[NetworkFilter("envoy.http_connection_manager", Some("ingress_route"),
                                                 [ExtAuthz, Router])]])]
  {
  }
}
