/** One pass of the updater (Run in pkg/provider/updater.go): compile what the provider reports and store one
    snapshot per node in the cache, which answers the open watches of that node. The version of a snapshot is a
    hash of the node's load assignments, listed in some order; which hash is a parameter here. */
module Updater {
  import opened Xds
  import opened SnapshotCache
  import opened Mesh
  import opened Routing
  import CacheObject
  import MeshObject

  type Hash = seq<Resource> -> string

  /** What the getters of a node may return: its maps, listed in some order; the load assignments are listed twice,
      for the version and for the snapshot. */
  datatype Listing = Listing(hashed: seq<Resource>, endpoints: seq<Resource>, clusters: seq<Resource>,
                             routes: seq<Resource>)

  ghost predicate ListingOf(node: NodeState, l: Listing) {
    && Lists(node.endpoints, l.hashed) && Lists(node.endpoints, l.endpoints)
    && Lists(node.clusters, l.clusters) && Lists(node.routes, l.routes)
  }

  /** A snapshot that the updater may store for the node: its lists, indexed by name, under a hash of its load
      assignments. */
  ghost predicate Stores(hash: Hash, node: NodeState, snap: Snapshot) {
    exists l :: ListingOf(node, l) && snap ==
      SnapshotOf(hash(l.hashed), Index(l.endpoints), Index(l.clusters), Index(l.routes), Index(node.listeners))
  }

  method SnapshotOfNode(node: MeshObject.Node, hash: Hash) returns (snap: Snapshot)
    ensures Stores(hash, node.State(), snap)
  {
    var hashed := MeshObject.ListResources(node.endpoints);
    var endpoints := MeshObject.ListResources(node.endpoints);
    var clusters := MeshObject.ListResources(node.clusters);
    var routes := MeshObject.ListResources(node.routes);
    snap := NewSnapshot(hash(hashed), endpoints, clusters, routes, node.listeners);
    assert ListingOf(node.State(), Listing(hashed, endpoints, clusters, routes));
  }

  /** The snapshot holds the node's own maps, under the hash of some listing of its load assignments. */
  ghost predicate SnapshotBy(hash: Hash, node: NodeState, snap: Snapshot) {
    exists listing :: Lists(node.endpoints, listing) && snap == SnapshotFrom(hash(listing), node)
  }

  /** The lists of a well-formed node, indexed again by name, are the node's own maps, whatever the orders. */
  lemma StoresOwnMaps(hash: Hash, node: NodeState, snap: Snapshot)
    requires NodeOk(node) && Stores(hash, node, snap)
    ensures SnapshotBy(hash, node, snap)
  {
    var l :| ListingOf(node, l) && snap ==
      SnapshotOf(hash(l.hashed), Index(l.endpoints), Index(l.clusters), Index(l.routes), Index(node.listeners));
    IndexListRoundTrip(node.endpoints, l.endpoints);
    IndexListRoundTrip(node.clusters, l.clusters);
    IndexListRoundTrip(node.routes, l.routes);
  }

  /** Position i is the last one of its name. */
  ghost predicate LastOfName(names: seq<string>, i: nat)
    requires i < |names|
  {
    forall j :: i < j < |names| ==> names[j] != names[i]
  }

  /** The snapshots are stored on top of earlier ones: of those of one name the last one counts. */
  ghost predicate Stored<T>(names: seq<string>, snaps: seq<T>, earlier: map<string, T>, now: map<string, T>)
    requires |names| == |snaps|
  {
    && (forall i :: 0 <= i < |names| && LastOfName(names, i) ==> names[i] in now && now[names[i]] == snaps[i])
    && (forall x :: x in now && x !in earlier ==> x in names)
    && (forall x :: x in earlier && x !in names ==> x in now && now[x] == earlier[x])
  }

  /** Stores one after the other. */
  function StoreAll<T>(names: seq<string>, snaps: seq<T>, earlier: map<string, T>): map<string, T>
    requires |names| == |snaps|
  {
    if names == [] then earlier
    else
      var last := |names| - 1;
      StoreAll(names[..last], snaps[..last], earlier)[names[last] := snaps[last]]
  }

  lemma StoreMore<T>(names: seq<string>, snaps: seq<T>, earlier: map<string, T>, x: string, snap: T)
    requires |names| == |snaps|
    ensures StoreAll(names + [x], snaps + [snap], earlier) == StoreAll(names, snaps, earlier)[x := snap]
  {
    assert (names + [x])[..|names|] == names && (snaps + [snap])[..|names|] == snaps;
  }

  lemma {:induction false} StoreAllStores<T>(names: seq<string>, snaps: seq<T>, earlier: map<string, T>)
    requires |names| == |snaps|
    ensures Stored(names, snaps, earlier, StoreAll(names, snaps, earlier))
  {
    if names != [] {
      var last := |names| - 1;
      StoreAllStores(names[..last], snaps[..last], earlier);
      var now := StoreAll(names, snaps, earlier);
      assert names == names[..last] + [names[last]];
      forall i | 0 <= i < |names| && LastOfName(names, i) ensures names[i] in now && now[names[i]] == snaps[i] {
        if i < last { assert names[last] != names[i] && LastOfName(names[..last], i); }
      }
    }
  }

  /** The snapshots belong to the nodes, one by one, in the given sense. */
  ghost predicate AllBy(fits: (NodeState, Snapshot) -> bool, states: seq<NodeState>, snaps: seq<Snapshot>) {
    |states| == |snaps| && forall i :: 0 <= i < |states| ==> fits(states[i], snaps[i])
  }

  /** One iteration of the loop of Run, after those for earlier nodes. */
  method PublishNode(cache: CacheObject.Cache, node: MeshObject.Node, hash: Hash, ghost names: seq<string>,
                     ghost snaps: seq<Snapshot>, ghost earlier: map<string, Snapshot>,
                     ghost fits: (NodeState, Snapshot) -> bool)
      returns (snap: Snapshot)
    requires CacheInv(cache.State()) && |names| == |snaps| && cache.snapshots == StoreAll(names, snaps, earlier)
    requires forall state, snap :: Stores(hash, state, snap) ==> fits(state, snap)
    modifies cache
    ensures CacheInv(cache.State()) && fits(node.State(), snap)
    ensures cache.snapshots == StoreAll(names + [node.name], snaps + [snap], earlier)
  {
    snap := SnapshotOfNode(node, hash);
    StoreMore(names, snaps, earlier, node.name, snap);
    cache.SetSnapshot(node.name, snap);
  }

  /** The loop of Run over the compiled nodes. */
  method Publish(cache: CacheObject.Cache, nodes: seq<MeshObject.Node>, hash: Hash, ghost states: seq<NodeState>,
                 ghost names: seq<string>, ghost fits: (NodeState, Snapshot) -> bool)
      returns (ghost snaps: seq<Snapshot>)
    requires CacheInv(cache.State()) && |nodes| == |names| == |states|
    requires forall i :: 0 <= i < |nodes| ==> nodes[i].State() == states[i] && nodes[i].name == names[i]
    requires forall state, snap :: Stores(hash, state, snap) ==> fits(state, snap)
    modifies cache
    ensures CacheInv(cache.State())
    ensures |snaps| == |nodes| && AllBy(fits, states, snaps)
    ensures cache.snapshots == StoreAll(names, snaps, old(cache.snapshots))
  {
    snaps := [];
    for k := 0 to |nodes|
      invariant CacheInv(cache.State())
      invariant |snaps| == k && forall i :: 0 <= i < k ==> fits(states[i], snaps[i])
      invariant cache.snapshots == StoreAll(names[..k], snaps, old(cache.snapshots))
    {
      var snap := PublishNode(cache, nodes[k], hash, names[..k], snaps, old(cache.snapshots), fits);
      assert names[..k + 1] == names[..k] + [names[k]];
      snaps := snaps + [snap];
    }
    assert names[..|nodes|] == names;
  }

  lemma MeshNodeOk(p: Provider, order: seq<string>, visit: seq<string>, i: nat)
    requires Ordering(order, p.Keys) && Ordering(visit, p.Keys) && i <= |visit|
    ensures NodeOk(MeshNode(p, order, visit, i)) && MeshNode(p, order, visit, i).name == (visit + ["ingress"])[i]
  {
    if i < |visit| {
      assert visit[i] in visit;
      SidecarEndpoints(p, order, visit[i], "");
    } else {
      SharedEndpoints("ingress", GlobalServices(p, order), INGRESS_ROUTE, GlobalVHosts(p, order), "");
      FrontConservation(p, order, "");
    }
  }

  /** The cache holds, for every node of the provider, the snapshot of its sidecar, and for "ingress" that of the front
      proxy, even if a node of the provider is called so. The stored snapshot of a sidecar is consistent exactly
      when its node has a service; that of the front proxy always is. */
  ghost predicate Deployed(p: Provider, order: seq<string>, hash: Hash, now: map<string, Snapshot>)
    requires Ordering(order, p.Keys)
  {
    && (forall n :: n in p && n != "ingress" ==> SidecarStored(p, order, hash, now, n))
    && FrontStored(p, order, hash, now)
  }

  ghost predicate SidecarStored(p: Provider, order: seq<string>, hash: Hash, now: map<string, Snapshot>, n: string)
    requires Ordering(order, p.Keys) && n in p
  {
    && n in now
    && (IsConsistent(now[n]) <==> p[n] != [])
    && SnapshotBy(hash, NodeOf(p, order, n), now[n])
  }

  ghost predicate FrontStored(p: Provider, order: seq<string>, hash: Hash, now: map<string, Snapshot>)
    requires Ordering(order, p.Keys)
  {
    "ingress" in now && IsConsistent(now["ingress"]) && SnapshotBy(hash, Front(p, order), now["ingress"])
  }

  /** The snapshots are those of the compiled nodes, and are stored. */
  ghost predicate MeshStored(p: Provider, order: seq<string>, visit: seq<string>, hash: Hash, snaps: seq<Snapshot>,
                             earlier: map<string, Snapshot>, now: map<string, Snapshot>)
    requires Ordering(order, p.Keys) && Ordering(visit, p.Keys)
  {
    && |snaps| == |visit| + 1
    && (forall i :: 0 <= i < |snaps| ==> SnapshotBy(hash, MeshNode(p, order, visit, i), snaps[i]))
    && Stored(visit + ["ingress"], snaps, earlier, now)
  }

  lemma SidecarIsStored(p: Provider, order: seq<string>, visit: seq<string>, hash: Hash, snaps: seq<Snapshot>,
                        earlier: map<string, Snapshot>, now: map<string, Snapshot>, n: string)
    requires Ordering(order, p.Keys) && Ordering(visit, p.Keys) && n in p && n != "ingress"
    requires MeshStored(p, order, visit, hash, snaps, earlier, now)
    ensures SidecarStored(p, order, hash, now, n)
  {
    var i :| 0 <= i < |visit| && visit[i] == n;
    assert LastOfName(visit + ["ingress"], i);
    assert now[n] == snaps[i] && SnapshotBy(hash, MeshNode(p, order, visit, i), snaps[i]);
    var listing :| Lists(NodeOf(p, order, n).endpoints, listing) &&
                   now[n] == SnapshotFrom(hash(listing), NodeOf(p, order, n));
    SidecarConsistentExactly(p, order, n, hash(listing));
  }

  lemma FrontIsStored(p: Provider, order: seq<string>, visit: seq<string>, hash: Hash, snaps: seq<Snapshot>,
                      earlier: map<string, Snapshot>, now: map<string, Snapshot>)
    requires Ordering(order, p.Keys) && Ordering(visit, p.Keys)
    requires MeshStored(p, order, visit, hash, snaps, earlier, now)
    ensures FrontStored(p, order, hash, now)
  {
    var names, last := visit + ["ingress"], |visit|;
    assert LastOfName(names, last);
    assert now[names[last]] == snaps[last] && SnapshotBy(hash, MeshNode(p, order, visit, last), snaps[last]);
    var listing :| Lists(Front(p, order).endpoints, listing) &&
                   snaps[last] == SnapshotFrom(hash(listing), Front(p, order));
    FrontConsistent(p, order, hash(listing));
  }

  lemma StoredIsDeployed(p: Provider, order: seq<string>, visit: seq<string>, hash: Hash, snaps: seq<Snapshot>,
                         earlier: map<string, Snapshot>, now: map<string, Snapshot>)
    requires Ordering(order, p.Keys) && Ordering(visit, p.Keys)
    requires MeshStored(p, order, visit, hash, snaps, earlier, now)
    ensures Deployed(p, order, hash, now)
  {
    forall n | n in p && n != "ingress" ensures SidecarStored(p, order, hash, now, n) {
      SidecarIsStored(p, order, visit, hash, snaps, earlier, now, n);
    }
    FrontIsStored(p, order, visit, hash, snaps, earlier, now);
  }

  /** One pass: what the provider reports is deployed, whatever was stored before. */
  method Pass(cache: CacheObject.Cache, p: Provider, hash: Hash) returns (ghost order: seq<string>)
    requires CacheInv(cache.State())
    modifies cache
    ensures CacheInv(cache.State())
    ensures Ordering(order, p.Keys) && Deployed(p, order, hash, cache.snapshots)
  {
    var nodes; ghost var visit;
    nodes, order, visit := MeshObject.Transform(p);
    PublishMesh(cache, nodes, p, hash, order, visit);
  }

  /** Stores the compiled mesh. */
  method PublishMesh(cache: CacheObject.Cache, nodes: seq<MeshObject.Node>, p: Provider, hash: Hash,
                     ghost order: seq<string>, ghost visit: seq<string>)
    requires CacheInv(cache.State()) && Ordering(order, p.Keys) && Ordering(visit, p.Keys) && |nodes| == |visit| + 1
    requires forall i :: 0 <= i < |nodes| ==> nodes[i].State() == MeshNode(p, order, visit, i)
    modifies cache
    ensures CacheInv(cache.State())
    ensures Deployed(p, order, hash, cache.snapshots)
  {
    ghost var names := visit + ["ingress"];
    forall i | 0 <= i < |nodes| ensures nodes[i].name == names[i] {
      MeshNodeOk(p, order, visit, i);
    }
    ghost var states := seq(|nodes|, i requires 0 <= i < |nodes| => MeshNode(p, order, visit, i));
    ghost var fits := (state, snap) => Stores(hash, state, snap);
    ghost var snaps := Publish(cache, nodes, hash, states, names, fits);
    StoreAllStores(names, snaps, old(cache.snapshots));
    forall i | 0 <= i < |snaps| ensures SnapshotBy(hash, MeshNode(p, order, visit, i), snaps[i]) {
      assert fits(states[i], snaps[i]);
      MeshNodeOk(p, order, visit, i);
      StoresOwnMaps(hash, states[i], snaps[i]);
    }
    StoredIsDeployed(p, order, visit, hash, snaps, old(cache.snapshots), cache.snapshots);
  }
}
