/** The updater's versions against the cache's demand that distinct snapshots have distinct versions: a version is a
    hash of the load assignments alone, and settles these and the names in them. */
module Versions {
  import opened Xds
  import opened SnapshotCache
  import opened Mesh
  import opened Routing
  import opened Updater
  import opened Convergence
  import opened Content

  ghost predicate CollisionFree(hash: Hash) {
    forall a, b :: hash(a) == hash(b) ==> a == b
  }

  /** The version of the load assignments is the hash of some listing of them. */
  ghost predicate HashedBy(hash: Hash, snap: Snapshot) {
    && WellKeyed(snap.endpoints.items)
    && exists listing :: Lists(snap.endpoints.items, listing) && snap.endpoints.version == hash(listing)
  }

  /** The updater compiled the snapshot for node n, from this provider in this order. */
  ghost predicate CompiledFrom(hash: Hash, q: Provider, o: seq<string>, n: string, snap: Snapshot) {
    Ordering(o, q.Keys) && n in q && SnapshotBy(hash, NodeOf(q, o, n), snap)
  }

  lemma UpdaterHashes(hash: Hash, node: NodeState, snap: Snapshot)
    requires NodeOk(node) && SnapshotBy(hash, node, snap)
    ensures HashedBy(hash, snap)
  {
  }

  /** What one pass of the updater has stored. */
  lemma DeployedIsCompiled(p: Provider, order: seq<string>, hash: Hash, now: map<string, Snapshot>)
    requires Ordering(order, p.Keys) && Deployed(p, order, hash, now)
    ensures forall n :: n in p && n != "ingress" ==> CompiledFrom(hash, p, order, n, now[n]) && HashedBy(hash, now[n])
    ensures HashedBy(hash, now["ingress"])
  {
    forall n | n in p && n != "ingress" ensures CompiledFrom(hash, p, order, n, now[n]) && HashedBy(hash, now[n]) {
      assert SidecarStored(p, order, hash, now, n);
      SidecarEndpoints(p, order, n, "");
      UpdaterHashes(hash, NodeOf(p, order, n), now[n]);
    }
    FrontConservation(p, order, "");
    UpdaterHashes(hash, Front(p, order), now["ingress"]);
  }

  /** Equal versions, equal load assignments, whatever the orders in which they were listed. */
  lemma VersionSettlesEndpoints(hash: Hash, a: Snapshot, b: Snapshot)
    requires CollisionFree(hash) && HashedBy(hash, a) && HashedBy(hash, b)
    ensures a.endpoints.version == b.endpoints.version ==> a.endpoints == b.endpoints
  {
    var s :| Lists(a.endpoints.items, s) && a.endpoints.version == hash(s);
    var t :| Lists(b.endpoints.items, t) && b.endpoints.version == hash(t);
    IndexListRoundTrip(a.endpoints.items, s);
    IndexListRoundTrip(b.endpoints.items, t);
  }

  /******* Histories *******/

  /** All snapshots of the client's node, up to moment i, are of some sort. */
  ghost predicate OnlyStores(sort: Snapshot -> bool, me: Client, ws: seq<World>, moves: seq<Move>, i: nat)
    requires i <= |moves| < |ws|
  {
    && (me.node in ws[0].sys.cache.snapshots ==> sort(ws[0].sys.cache.snapshots[me.node]))
    && forall m :: 0 <= m < i && Publishes(me, moves[m]) ==> sort(moves[m].step.snapshot)
  }

  lemma StoredAfter(me: Client, w: World, move: Move, w': World)
    requires Moves(me, w, move, w') && me.node in w'.sys.cache.snapshots
    ensures if Publishes(me, move) then w'.sys.cache.snapshots[me.node] == move.step.snapshot
            else me.node in w.sys.cache.snapshots && w'.sys.cache.snapshots[me.node] == w.sys.cache.snapshots[me.node]
  {
  }

  lemma {:induction false} StoredIs(sort: Snapshot -> bool, me: Client, ws: seq<World>, moves: seq<Move>, i: nat,
                                    a: nat)
    requires IsHistory(me, ws, moves) && a <= i < |ws| && OnlyStores(sort, me, ws, moves, i)
    requires me.node in ws[a].sys.cache.snapshots
    ensures sort(ws[a].sys.cache.snapshots[me.node])
  {
    if a > 0 {
      assert Moves(me, ws[a - 1], moves[a - 1], ws[a]);
      StoredAfter(me, ws[a - 1], moves[a - 1], ws[a]);
      if !Publishes(me, moves[a - 1]) { StoredIs(sort, me, ws, moves, i, a - 1); }
    }
  }

  /** For load assignments the updater meets the demand of the cache, in every history. */
  lemma EndpointVersionsDistinct(hash: Hash, me: Client, ws: seq<World>, moves: seq<Move>, i: nat)
    requires CollisionFree(hash) && IsHistory(me, ws, moves) && i < |ws|
    requires OnlyStores(snap => HashedBy(hash, snap), me, ws, moves, i)
    ensures DistinctVersions(me, ws, i, Endpoints)
  {
    var sort := snap => HashedBy(hash, snap);
    forall a, b | 0 <= a <= i && 0 <= b <= i && Ranked(me, ws[a]) && Ranked(me, ws[b])
      ensures StoredVersion(me, ws[a], Endpoints) == StoredVersion(me, ws[b], Endpoints) ==>
                Group(ws[a].sys.cache.snapshots[me.node], Of(Endpoints)) ==
                Group(ws[b].sys.cache.snapshots[me.node], Of(Endpoints))
    {
      StoredIs(sort, me, ws, moves, i, a);
      StoredIs(sort, me, ws, moves, i, b);
      VersionSettlesEndpoints(hash, ws[a].sys.cache.snapshots[me.node], ws[b].sys.cache.snapshots[me.node]);
    }
  }

  /** Two snapshots of a sidecar with one version, for whatever type, come from nodes with the same load assignments. */
  lemma OneVersionSameEndpoints(hash: Hash, p: Provider, order: seq<string>, q: Provider, o: seq<string>, n: string,
                                s: Snapshot, t: Snapshot)
    requires CollisionFree(hash) && CompiledFrom(hash, p, order, n, s) && CompiledFrom(hash, q, o, n, t)
    requires s.endpoints.version == t.endpoints.version
    ensures NodeOf(p, order, n).endpoints == NodeOf(q, o, n).endpoints
    ensures AllNames(p) + Names(Locals(p[n])) == AllNames(q) + Names(Locals(q[n]))
  {
    SidecarEndpoints(p, order, n, "");
    SidecarEndpoints(q, o, n, "");
    UpdaterHashes(hash, NodeOf(p, order, n), s);
    UpdaterHashes(hash, NodeOf(q, o, n), t);
    VersionSettlesEndpoints(hash, s, t);
  }
}
