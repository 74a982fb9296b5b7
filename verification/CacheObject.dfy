/** The cache as the program runs it: an object whose methods loop over its maps and send on its
    channels (pkg/cache/simple.go). Each method is tied to the relation that specifies it. A method
    body is what the program does while it holds the cache mutex. */
module CacheObject {
  import opened Xds
  import opened SnapshotCache

  method NameSet(names: seq<string>) returns (names': set<string>)
    ensures forall n :: n in names' <==> n in names
  {
    names' := {};
    for i := 0 to |names|
      invariant forall n :: n in names' <==> n in names[..i]
    {
      assert names[..i + 1] == names[..i] + [names[i]];
      names' := names' + {names[i]};
    }
    assert names[..|names|] == names;
  }

  /** Collects the requested resources in whatever order the map is visited. */
  method CreateResponse(r: Request, items: map<string, Resource>, version: string) returns (resp: Response)
    ensures Answers(resp, r, ResourceGroup(version, items))
  {
    var filtered: seq<Resource> := [];
    ghost var order: seq<string> := [];
    ghost var wanted := Requested(r, items);
    var nameSet := NameSet(r.names);
    var todo := items.Keys;
    while todo != {}
      invariant todo <= items.Keys
      invariant ListedBy(order, map n | n in wanted && n !in todo :: wanted[n], filtered)
      decreases todo
    {
      var n :| n in todo;
      ghost var next := map m | m in wanted && m !in todo - {n} :: wanted[m];
      if r.names == [] || n in nameSet {
        ghost var longer := order + [n];
        assert n !in order;
        forall m ensures m in longer <==> m in next.Keys {
          assert m in longer <==> m in order || m == n;
        }
        filtered, order := filtered + [items[n]], longer;
      }
      todo := todo - {n};
      assert ListedBy(order, next, filtered);
    }
    assert (map n | n in wanted && n !in todo :: wanted[n]) == wanted;
    resp := Response(r, version, filtered);
  }

  class Cache {
    var ads: bool
    var snapshots: map<string, Snapshot>
    var status: map<string, map<nat, Watch>>
    var watchCount: nat
    var chans: seq<Channel>

    ghost function State(): CacheState
      reads this
    {
      CacheState(ads, snapshots, status, watchCount, chans)
    }

    constructor (ads: bool)
      ensures State() == CacheState(ads, map[], map[], 0, [])
      ensures CacheInv(State())
    {
      this.ads, snapshots, status, watchCount, chans := ads, map[], map[], 0, [];
    }

    /** The send would block on a full channel; the precondition says that it does not. */
    method Respond(r: Request, value: nat, items: map<string, Resource>, version: string)
      requires value < |chans| && chans[value].buf == []
      modifies this`chans
      ensures |chans| == |old(chans)|
      ensures forall ch :: 0 <= ch < |chans| && ch != value ==> chans[ch] == old(chans)[ch]
      ensures Responds(ads, r, ResourceGroup(version, items), old(chans)[value], chans[value])
    {
      if |r.names| != 0 && ads {
        var names := NameSet(r.names);
        var missing := Superset(names, items);
        if missing.Some? { return; }
      }
      var resp := CreateResponse(r, items, version);
      chans := chans[value := Channel(chans[value].buf + [resp], chans[value].sends + 1)];
    }

    /** One iteration of the loop of SetSnapshot: answer and discard the watch if its version differs. */
    method Visit(node: string, snapshot: Snapshot, id: nat)
      requires Open(State(), WatchKey(node, id))
      requires status[node][id].response < |chans| && chans[status[node][id].response] == FRESH
      modifies this`status, this`chans
      ensures |chans| == |old(chans)|
      ensures var w := old(status)[node][id];
              if Stale(w, snapshot) then
                && status == old(status)[node := old(status)[node] - {id}]
                && (forall ch :: 0 <= ch < |chans| && ch != w.response ==> chans[ch] == old(chans)[ch])
                && Responds(ads, w.request, Group(snapshot, w.request.typeUrl), FRESH, chans[w.response])
              else status == old(status) && chans == old(chans)
    {
      var watch := status[node][id];
      var version := GetVersion(snapshot, watch.request.typeUrl);
      if version != watch.request.version {
        Respond(watch.request, watch.response, GetResources(snapshot, watch.request.typeUrl), version);
        status := status[node := status[node] - {id}];
      }
    }

    /** Answers and discards every open watch of the node whose version differs, in any order. */
    method SetSnapshot(node: string, snapshot: Snapshot)
      requires CacheInv(State())
      modifies this
      ensures SetSnapshotRel(old(State()), node, snapshot, State())
      ensures CacheInv(State())
    {
      ghost var c := State();
      snapshots := snapshots[node := snapshot];
      if node in status {
        SweepAll(node, snapshot, c);
      } else {
        SweepNone(c, node, snapshot, State());
      }
      SweepDone(c, node, snapshot, State());
    }

    /** The loop of SetSnapshot, in any order; c is the state before. */
    method SweepAll(node: string, snapshot: Snapshot, ghost c: CacheState)
      requires CacheInv(c) && node in status && State() == c.(snapshots := c.snapshots[node := snapshot])
      modifies this`status, this`chans
      ensures |chans| == |c.chans| && status.Keys == c.status.Keys
      ensures SweptStatus(c, node, snapshot, {}, State()) && SweptChannels(c, node, snapshot, {}, State())
    {
      var todo := status[node].Keys;
      while todo != {}
        invariant |chans| == |c.chans| && status.Keys == c.status.Keys && todo <= status[node].Keys
        invariant SweptStatus(c, node, snapshot, todo, State())
        invariant SweptChannels(c, node, snapshot, todo, State())
        decreases todo
      {
        var id :| id in todo;
        assert Open(State(), WatchKey(node, id));
        SweepTarget(c, node, snapshot, todo, State(), WatchKey(node, id));
        ghost var before := State();
        Visit(node, snapshot, id);
        SweepStep(c, node, snapshot, todo, before, State(), WatchKey(node, id));
        todo := todo - {id};
      }
    }

    method ClearSnapshot(node: string)
      modifies this
      ensures State() == SnapshotCache.ClearSnapshot(old(State()), node)
      ensures snapshots == old(snapshots) - {node} && status == old(status) - {node}
    {
      snapshots := snapshots - {node};
      status := status - {node};
    }

    method CreateWatch(r: Request) returns (value: nat, cancel: Option<WatchKey>)
      modifies this
      ensures CreateWatchRel(old(State()), r, State(), value, cancel)
      ensures var id := if r.node.Some? then r.node.value else "node";
              && (cancel.Some? <==> id in snapshots ==> GetVersion(snapshots[id], r.typeUrl) == r.version)
              && (cancel.Some? ==> Open(State(), WatchKey(id, watchCount)) && cancel == Some(WatchKey(id, watchCount)))
    {
      ghost var c := State();
      var node := NodeId(r);
      if node !in status {
        status := status[node := map[]];
      }
      value := |chans|;
      chans := chans + [FRESH];
      if node !in snapshots || r.version == GetVersion(snapshots[node], r.typeUrl) {
        watchCount := watchCount + 1;
        var info: map<nat, Watch> := status[node];
        info := info[watchCount := Watch(r, value)];
        status := status[node := info];
        cancel := Some(WatchKey(node, watchCount));
      } else {
        Respond(r, value, GetResources(snapshots[node], r.typeUrl), GetVersion(snapshots[node], r.typeUrl));
        cancel := None;
        assert status == c.status[node := InfoOf(c, node)];
      }
      assert chans[..value] == c.chans;
    }

    /** What the function returned by cancelWatch does when it is called. */
    method CancelWatch(k: WatchKey)
      modifies this
      ensures State() == Cancel(old(State()), k)
      ensures old(CacheInv(State())) ==> CacheInv(State())
    {
      CancelSafe(State(), k);
      if k.node in status {
        status := status[k.node := status[k.node] - {k.id}];
      }
    }

    method Fetch(r: Request) returns (f: FetchResult)
      ensures FetchRel(State(), r, f)
      ensures var id := if r.node.Some? then r.node.value else "node";
              && (f == MissingSnapshot <==> id !in snapshots)
              && (f == VersionUpToDate <==> id in snapshots && GetVersion(snapshots[id], r.typeUrl) == r.version)
              && (f.Fetched? ==> f.response.request == r && Answers(f.response, r, Group(snapshots[id], r.typeUrl)))
    {
      var node := NodeId(r);
      if node in snapshots {
        var version := GetVersion(snapshots[node], r.typeUrl);
        if r.version == version { return VersionUpToDate; }
        var resp := CreateResponse(r, GetResources(snapshots[node], r.typeUrl), version);
        return Fetched(resp);
      }
      return MissingSnapshot;
    }
  }

  /******* The loop of SetSnapshot: what is done when the ids in todo are still to be visited *******/

  ghost predicate Swept(c: CacheState, node: string, snap: Snapshot, todo: set<nat>, k: WatchKey) {
    Fires(c, k, node, snap) && k.id !in todo
  }

  ghost predicate SweptStatus(c: CacheState, node: string, snap: Snapshot, todo: set<nat>, d: CacheState) {
    && (forall k :: Open(d, k) <==> Open(c, k) && !Swept(c, node, snap, todo, k))
    && (forall k :: Open(d, k) ==> WatchAt(d, k) == WatchAt(c, k))
  }

  ghost predicate SweptChannels(c: CacheState, node: string, snap: Snapshot, todo: set<nat>, d: CacheState)
    requires |d.chans| == |c.chans|
  {
    && (forall ch | 0 <= ch < |c.chans| &&
                    (forall k :: Swept(c, node, snap, todo, k) ==> WatchAt(c, k).response != ch) ::
          d.chans[ch] == c.chans[ch])
    && (forall k :: Swept(c, node, snap, todo, k) && WatchAt(c, k).response < |c.chans| ==>
          var w := WatchAt(c, k);
          Responds(c.ads, w.request, Group(snap, w.request.typeUrl), c.chans[w.response], d.chans[w.response]))
  }

  /** The next watch to visit still has its own, unused channel. */
  lemma SweepTarget(c: CacheState, node: string, snap: Snapshot, todo: set<nat>, d: CacheState, k: WatchKey)
    requires CacheInv(c) && |d.chans| == |c.chans| && k.node == node && k.id in todo && Open(d, k)
    requires SweptStatus(c, node, snap, todo, d) && SweptChannels(c, node, snap, todo, d)
    ensures Open(c, k) && WatchAt(d, k) == WatchAt(c, k)
    ensures WatchAt(c, k).response < |c.chans| && d.chans[WatchAt(c, k).response] == FRESH
  {
    assert WatchOk(c, k);
    forall j | Swept(c, node, snap, todo, j) ensures WatchAt(c, j).response != WatchAt(c, k).response {
      assert j == k || !SameWatch(c, j, k);
    }
  }

  lemma SweepStep(c: CacheState, node: string, snap: Snapshot, todo: set<nat>, d: CacheState, e: CacheState,
                  k: WatchKey)
    requires CacheInv(c) && |d.chans| == |c.chans| == |e.chans| && k.node == node && k.id in todo
    requires Open(c, k) && WatchAt(c, k).response < |c.chans|
    requires SweptStatus(c, node, snap, todo, d) && SweptChannels(c, node, snap, todo, d)
    requires d.chans[WatchAt(c, k).response] == FRESH
    requires if Fires(c, k, node, snap)
             then var w := WatchAt(c, k);
                  && e.status == d.status[node := InfoOf(d, node) - {k.id}]
                  && (forall ch :: 0 <= ch < |d.chans| && ch != w.response ==> e.chans[ch] == d.chans[ch])
                  && Responds(c.ads, w.request, Group(snap, w.request.typeUrl), FRESH, e.chans[w.response])
             else e.status == d.status && e.chans == d.chans
    ensures SweptStatus(c, node, snap, todo - {k.id}, e) && SweptChannels(c, node, snap, todo - {k.id}, e)
  {
    var rest := todo - {k.id};
    assert WatchOk(c, k);
    forall j
      ensures Swept(c, node, snap, rest, j) <==> Swept(c, node, snap, todo, j) || (j == k && Fires(c, k, node, snap))
    {
    }
    forall j | Swept(c, node, snap, todo, j) ensures WatchAt(c, j).response != WatchAt(c, k).response {
      assert j == k || !SameWatch(c, j, k);
    }
    if Fires(c, k, node, snap) { assert Swept(c, node, snap, rest, k); }
  }

  lemma SweepNone(c: CacheState, node: string, snap: Snapshot, d: CacheState)
    requires node !in c.status && d.status == c.status && d.chans == c.chans
    ensures SweptStatus(c, node, snap, {}, d) && SweptChannels(c, node, snap, {}, d)
  {
    assert forall k :: !Swept(c, node, snap, {}, k);
  }

  lemma SweepDone(c: CacheState, node: string, snap: Snapshot, d: CacheState)
    requires CacheInv(c)
    requires d.ads == c.ads && d.watchCount == c.watchCount && d.snapshots == c.snapshots[node := snap]
    requires d.status.Keys == c.status.Keys && |d.chans| == |c.chans|
    requires SweptStatus(c, node, snap, {}, d) && SweptChannels(c, node, snap, {}, d)
    ensures SetSnapshotRel(c, node, snap, d) && CacheInv(d)
  {
    assert forall k :: Swept(c, node, snap, {}, k) <==> Fires(c, k, node, snap);
    CacheInvSetSnapshot(c, node, snap, d);
  }
}
