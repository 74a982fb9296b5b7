/** The snapshot cache (pkg/cache/simple.go, pkg/cache/status.go): one versioned snapshot per node
    and a table of open watches per node.

    CacheState is the value of a cache at a moment when nobody holds its mutex. Go channels are cells
    of the table chans; a channel is named by its index. The order in which a Go loop visits a map is
    arbitrary, so an operation that builds a response is a relation between states. */
module SnapshotCache {
  import opened Xds

  /** A response channel of capacity one: what is queued, and how often it was ever sent to. */
  datatype Channel = Channel(buf: seq<Response>, sends: nat)

  const FRESH := Channel([], 0)

  /** An open watch: the request and the channel that will carry its answer. */
  datatype Watch = Watch(request: Request, response: nat)

  /** What a cancel function captures. */
  datatype WatchKey = WatchKey(node: string, id: nat)

  datatype CacheState = CacheState(ads: bool, snapshots: map<string, Snapshot>,
                                   status: map<string, map<nat, Watch>>, watchCount: nat,
                                   chans: seq<Channel>)

  /** A request without a node is filed under "node". */
  function NodeId(r: Request): string {
    if r.node.Some? then r.node.value else "node"
  }

  predicate Open(c: CacheState, k: WatchKey) {
    k.node in c.status && k.id in c.status[k.node]
  }

  function WatchAt(c: CacheState, k: WatchKey): Watch
    requires Open(c, k)
  {
    c.status[k.node][k.id]
  }

  /******* Answers *******/

  /** The part of a group that a request asks for: everything when it names nothing. */
  function Requested(r: Request, items: map<string, Resource>): map<string, Resource> {
    if r.names == [] then items else map n | n in items && n in r.names :: items[n]
  }

  ghost predicate Answers(resp: Response, r: Request, g: ResourceGroup) {
    && resp.request == r
    && resp.version == g.version
    && Lists(Requested(r, g.items), resp.resources)
  }

  /** In ADS mode a request that names some but not all resources is left without an answer. */
  ghost predicate Held(ads: bool, r: Request, items: map<string, Resource>) {
    ads && r.names != [] && exists n :: n in items && n !in r.names
  }

  /** respond: the channel is sent one answer, or is left alone. */
  ghost predicate Responds(ads: bool, r: Request, g: ResourceGroup, before: Channel, after: Channel) {
    if Held(ads, r, g.items) then after == before
    else
      && after.sends == before.sends + 1
      && |after.buf| == |before.buf| + 1
      && after.buf[..|before.buf|] == before.buf
      && Answers(after.buf[|before.buf|], r, g)
  }

  /******* The operations *******/

  predicate Stale(w: Watch, snap: Snapshot) {
    GetVersion(snap, w.request.typeUrl) != w.request.version
  }

  ghost predicate Fires(c: CacheState, k: WatchKey, node: string, snap: Snapshot) {
    Open(c, k) && k.node == node && Stale(WatchAt(c, k), snap)
  }

  /** Channels that SetSnapshot does not touch. */
  ghost predicate Quiet(c: CacheState, ch: nat, node: string, snap: Snapshot) {
    forall k :: Fires(c, k, node, snap) ==> WatchAt(c, k).response != ch
  }

  ghost predicate SetSnapshotRel(c: CacheState, node: string, snap: Snapshot, c': CacheState) {
    && c'.ads == c.ads
    && c'.watchCount == c.watchCount
    && c'.snapshots == c.snapshots[node := snap]
    && c'.status.Keys == c.status.Keys
    && (forall k :: Open(c', k) <==> Open(c, k) && !Fires(c, k, node, snap))
    && (forall k :: Open(c', k) ==> WatchAt(c', k) == WatchAt(c, k))
    && |c'.chans| == |c.chans|
    && (forall ch :: 0 <= ch < |c.chans| && Quiet(c, ch, node, snap) ==> c'.chans[ch] == c.chans[ch])
    && (forall k :: Fires(c, k, node, snap) && WatchAt(c, k).response < |c.chans| ==>
          var w := WatchAt(c, k);
          Responds(c.ads, w.request, Group(snap, w.request.typeUrl), c.chans[w.response], c'.chans[w.response]))
  }

  function ClearSnapshot(c: CacheState, node: string): CacheState {
    c.(snapshots := c.snapshots - {node}, status := c.status - {node})
  }

  function Cancel(c: CacheState, k: WatchKey): CacheState {
    if k.node in c.status then c.(status := c.status[k.node := c.status[k.node] - {k.id}]) else c
  }

  function InfoOf(c: CacheState, node: string): map<nat, Watch> {
    if node in c.status then c.status[node] else map[]
  }

  /** CreateWatch leaves the watch open when there is no snapshot or the version is up to date. */
  predicate UpToDate(c: CacheState, r: Request) {
    NodeId(r) in c.snapshots ==> r.version == GetVersion(c.snapshots[NodeId(r)], r.typeUrl)
  }

  ghost predicate CreateWatchRel(c: CacheState, r: Request, c': CacheState, chan: nat, cancel: Option<WatchKey>) {
    var node := NodeId(r);
    && c'.ads == c.ads
    && c'.snapshots == c.snapshots
    && chan == |c.chans|
    && |c'.chans| == |c.chans| + 1
    && c'.chans[..chan] == c.chans
    && if UpToDate(c, r) then
         && c'.watchCount == c.watchCount + 1
         && c'.status == c.status[node := InfoOf(c, node)[c'.watchCount := Watch(r, chan)]]
         && c'.chans[chan] == FRESH
         && cancel == Some(WatchKey(node, c'.watchCount))
       else
         && c'.watchCount == c.watchCount
         && c'.status == c.status[node := InfoOf(c, node)]
         && Responds(c.ads, r, Group(c.snapshots[node], r.typeUrl), FRESH, c'.chans[chan])
         && cancel == None
  }

  /******* The invariant of the cache *******/

  /** An open watch sits under its own node, on an unused channel, at the stored version. */
  ghost predicate WatchOk(c: CacheState, k: WatchKey)
    requires Open(c, k)
  {
    var w := WatchAt(c, k);
    && 1 <= k.id <= c.watchCount
    && NodeId(w.request) == k.node
    && w.response < |c.chans|
    && c.chans[w.response] == FRESH
    && (k.node in c.snapshots ==> !Stale(w, c.snapshots[k.node]))
  }

  ghost predicate SameWatch(c: CacheState, j: WatchKey, k: WatchKey)
    requires Open(c, j) && Open(c, k)
  {
    j.id == k.id || WatchAt(c, j).response == WatchAt(c, k).response
  }

  ghost predicate ChannelOk(ch: Channel) {
    && |ch.buf| <= ch.sends <= 1
    && (ch.buf != [] ==> ch.buf[0].version != ch.buf[0].request.version)
  }

  ghost predicate CacheInv(c: CacheState) {
    && (forall k :: Open(c, k) ==> WatchOk(c, k))
    && (forall j, k :: Open(c, j) && Open(c, k) && SameWatch(c, j, k) ==> j == k)
    && (forall ch :: 0 <= ch < |c.chans| ==> ChannelOk(c.chans[ch]))
  }

  lemma CacheInvSetSnapshot(c: CacheState, node: string, snap: Snapshot, c': CacheState)
    requires CacheInv(c) && SetSnapshotRel(c, node, snap, c')
    ensures CacheInv(c')
  {
    forall k | Open(c', k) ensures WatchOk(c', k) {
      assert Open(c, k) && WatchOk(c, k);
      forall j | Fires(c, j, node, snap) ensures WatchAt(c, j).response != WatchAt(c, k).response {
        assert j == k || !SameWatch(c, j, k);
      }
      assert Quiet(c, WatchAt(c, k).response, node, snap);
    }
    forall ch | 0 <= ch < |c'.chans| ensures ChannelOk(c'.chans[ch]) {
      if !Quiet(c, ch, node, snap) {
        var k :| Fires(c, k, node, snap) && WatchAt(c, k).response == ch;
        assert WatchOk(c, k);
      } else {
        assert ChannelOk(c.chans[ch]);
      }
    }
    forall j, k | Open(c', j) && Open(c', k) && SameWatch(c', j, k) ensures j == k {
      assert SameWatch(c, j, k);
    }
  }

  /** Dropping watches and snapshots keeps the invariant, as long as the snapshots that stay are the same. */
  lemma CacheInvShrink(c: CacheState, c': CacheState)
    requires CacheInv(c)
    requires c'.chans == c.chans && c'.watchCount == c.watchCount
    requires forall n :: n in c'.snapshots ==> n in c.snapshots && c'.snapshots[n] == c.snapshots[n]
    requires forall k :: Open(c', k) ==> Open(c, k) && WatchAt(c', k) == WatchAt(c, k)
    ensures CacheInv(c')
  {
    forall k | Open(c', k) ensures WatchOk(c', k) { assert WatchOk(c, k); }
    forall j, k | Open(c', j) && Open(c', k) && SameWatch(c', j, k) ensures j == k {
      assert SameWatch(c, j, k);
    }
  }

  lemma CacheInvCreateWatch(c: CacheState, r: Request, c': CacheState, chan: nat, cancel: Option<WatchKey>)
    requires CacheInv(c) && CreateWatchRel(c, r, c', chan, cancel)
    ensures CacheInv(c')
    ensures forall k :: Open(c', k) <==> Open(c, k) || cancel == Some(k)
    ensures forall k :: Open(c, k) ==> WatchAt(c', k) == WatchAt(c, k)
    ensures cancel.Some? ==> WatchAt(c', cancel.value) == Watch(r, chan) && !Open(c, cancel.value)
  {
    assert cancel.Some? && Open(c, cancel.value) ==> WatchOk(c, cancel.value);
    forall k | Open(c', k) ensures WatchOk(c', k) {
      if Open(c, k) {
        assert WatchOk(c, k);
        var w := WatchAt(c, k);
        assert c'.chans[w.response] == c'.chans[..chan][w.response];
      }
    }
    forall ch | 0 <= ch < |c'.chans| ensures ChannelOk(c'.chans[ch]) {
      if ch < chan {
        assert c'.chans[ch] == c'.chans[..chan][ch];
        assert ChannelOk(c.chans[ch]);
      }
    }
    forall j, k | Open(c', j) && Open(c', k) && SameWatch(c', j, k) ensures j == k {
      if Open(c, j) { assert WatchOk(c, j); }
      if Open(c, k) { assert WatchOk(c, k); }
      if Open(c, j) && Open(c, k) { assert SameWatch(c, j, k); }
    }
  }

  /** A cancel function is idempotent, removes its own watch and no other, and touches nothing else. */
  lemma CancelSafe(c: CacheState, k: WatchKey)
    ensures Cancel(Cancel(c, k), k) == Cancel(c, k)
    ensures forall j :: Open(Cancel(c, k), j) <==> Open(c, j) && j != k
    ensures forall j :: Open(Cancel(c, k), j) ==> WatchAt(Cancel(c, k), j) == WatchAt(c, j)
    ensures Cancel(c, k).snapshots == c.snapshots && Cancel(c, k).chans == c.chans
    ensures CacheInv(c) ==> CacheInv(Cancel(c, k))
  {
    var d := Cancel(c, k);
    if k.node in c.status {
      assert d.status[k.node] - {k.id} == d.status[k.node];
    }
    if CacheInv(c) { CacheInvShrink(c, d); }
  }

  lemma CacheInvClear(c: CacheState, node: string)
    requires CacheInv(c)
    ensures CacheInv(ClearSnapshot(c, node))
  {
    CacheInvShrink(c, ClearSnapshot(c, node));
  }

  /** SetSnapshot promises an answer on every open watch of the node whose version differs. It keeps
      the promise exactly when the answer is not held back; a held watch is dropped all the same. */
  lemma SetSnapshotAnswersExactly(c: CacheState, node: string, snap: Snapshot, c': CacheState, k: WatchKey)
    requires CacheInv(c) && SetSnapshotRel(c, node, snap, c') && Open(c, k)
    ensures var w := WatchAt(c, k);
            var g := Group(snap, w.request.typeUrl);
            var after := c'.chans[w.response];
            var stale := k.node == node && GetVersion(snap, w.request.typeUrl) != w.request.version;
            var held := c.ads && w.request.names != [] && exists n :: n in g.items && n !in w.request.names;
            && (after.buf != [] <==> stale && !held)
            && (after.buf != [] ==> after.buf == [after.buf[0]] && Answers(after.buf[0], w.request, g))
            && (Open(c', k) <==> !stale)
  {
    assert WatchOk(c, k);
    var w := WatchAt(c, k);
    if !Fires(c, k, node, snap) {
      forall j | Fires(c, j, node, snap) ensures WatchAt(c, j).response != w.response {
        assert j == k || !SameWatch(c, j, k);
      }
      assert Quiet(c, w.response, node, snap);
    }
  }

  /** The promise of the interface comment fails: an ADS watch that names too little is dropped unanswered. */
  lemma SetSnapshotCanDropSilently() returns (c: CacheState, snap: Snapshot, k: WatchKey, c': CacheState)
    ensures CacheInv(c) && Open(c, k) && Stale(WatchAt(c, k), snap)
    ensures SetSnapshotRel(c, k.node, snap, c')
    ensures !Open(c', k) && c'.chans[WatchAt(c, k).response].buf == []
  {
    var r := Request(Some("n"), Of(Endpoints), "", ["a"], "");
    k := WatchKey("n", 1);
    c := CacheState(true, map[], map["n" := map[1 := Watch(r, 0)]], 1, [FRESH]);
    var g := ResourceGroup("v", map["b" := LoadAssignment("b", [])]);
    snap := Snapshot(g, NO_GROUP, NO_GROUP, NO_GROUP, NO_GROUP);
    assert "v" != "";
    assert forall j :: Open(c, j) ==> j == k;
    assert WatchOk(c, k);
    assert CacheInv(c);
    assert "b" in g.items && "b" !in r.names by { assert "a"[0] == 'a' && "b"[0] == 'b'; }
    assert Held(true, r, g.items);
    c' := CacheState(true, map["n" := snap], map["n" := map[]], 1, [FRESH]);
    assert Fires(c, k, "n", snap);
  }

  /** In ADS mode the name filter drops nothing: an answered request gets all resources of its type. */
  lemma AdsAnswerIsWhole(r: Request, g: ResourceGroup, before: Channel, after: Channel)
    requires Responds(true, r, g, before, after) && after != before
    ensures Lists(g.items, after.buf[|before.buf|].resources)
  {
    assert Requested(r, g.items) == g.items;
  }

  /** What CreateWatch does, in terms of the request: a request without a node is for "node". The watch stays open
      exactly if that node has no snapshot or its version is the requested one. Otherwise the answer is queued at once,
      unless the request is held back: in ADS mode, if it names something but not everything. */
  lemma CreateWatchExactly(c: CacheState, r: Request, c': CacheState, chan: nat, cancel: Option<WatchKey>)
    requires CreateWatchRel(c, r, c', chan, cancel)
    ensures var id := if r.node.Some? then r.node.value else "node";
            && (cancel.Some? <==> id in c.snapshots ==> GetVersion(c.snapshots[id], r.typeUrl) == r.version)
            && (cancel.Some? ==>
                  && cancel.value == WatchKey(id, c.watchCount + 1)
                  && c'.status[id][cancel.value.id] == Watch(r, chan) && c'.chans[chan].buf == [])
            && (cancel.None? ==>
                  var g := Group(c.snapshots[id], r.typeUrl);
                  && (c'.chans[chan].buf == [] <==> c.ads && r.names != [] && exists n :: n in g.items && n !in r.names)
                  && (c'.chans[chan].buf != [] ==> c'.chans[chan].buf == [c'.chans[chan].buf[0]] &&
                                                   Answers(c'.chans[chan].buf[0], r, g)))
  {
  }

  /** A cleared node has neither a snapshot nor watches; nothing else is touched. */
  lemma ClearExactly(c: CacheState, node: string)
    ensures node !in ClearSnapshot(c, node).snapshots && node !in ClearSnapshot(c, node).status
    ensures forall n :: n != node ==>
              && (n in ClearSnapshot(c, node).snapshots <==> n in c.snapshots)
              && (n in c.snapshots ==> ClearSnapshot(c, node).snapshots[n] == c.snapshots[n])
              && (n in ClearSnapshot(c, node).status <==> n in c.status)
              && (n in c.status ==> ClearSnapshot(c, node).status[n] == c.status[n])
    ensures ClearSnapshot(c, node).chans == c.chans && ClearSnapshot(c, node).watchCount == c.watchCount
  {
  }

  /** CreateWatch always has a result. */
  lemma CreateWatchTotal(c: CacheState, r: Request) returns (c': CacheState, chan: nat, cancel: Option<WatchKey>)
    ensures CreateWatchRel(c, r, c', chan, cancel)
  {
    var node := NodeId(r);
    chan := |c.chans|;
    if UpToDate(c, r) {
      var id := c.watchCount + 1;
      var info: map<nat, Watch> := InfoOf(c, node);
      c' := CacheState(c.ads, c.snapshots, c.status[node := info[id := Watch(r, chan)]], id, c.chans + [FRESH]);
      cancel := Some(WatchKey(node, id));
    } else {
      var g := Group(c.snapshots[node], r.typeUrl);
      var listed := ListingExists(Requested(r, g.items));
      var after := if Held(c.ads, r, g.items) then FRESH else Channel([Response(r, g.version, listed)], 1);
      c' := CacheState(c.ads, c.snapshots, c.status[node := InfoOf(c, node)], c.watchCount, c.chans + [after]);
      cancel := None;
    }
    assert c'.chans[..chan] == c.chans;
  }

  /******* Polling *******/

  datatype FetchResult = Fetched(response: Response) | VersionUpToDate | MissingSnapshot

  ghost predicate FetchRel(c: CacheState, r: Request, f: FetchResult) {
    if NodeId(r) !in c.snapshots then f == MissingSnapshot
    else if r.version == GetVersion(c.snapshots[NodeId(r)], r.typeUrl) then f == VersionUpToDate
    else f.Fetched? && Answers(f.response, r, Group(c.snapshots[NodeId(r)], r.typeUrl))
  }

  /** Two answers to one request from one group hold the same resources, whatever the order. */
  ghost predicate SameAnswer(a: Response, b: Response) {
    && a.request == b.request && a.version == b.version
    && exists m: map<string, Resource> :: Lists(m, a.resources) && Lists(m, b.resources)
  }

  /** A poll succeeds exactly when a watch would be answered at once, with the same answer, except that
      an ADS watch may be held back. */
  lemma PollingAgreesWithStreaming(c: CacheState, r: Request, f: FetchResult,
                                   c': CacheState, chan: nat, cancel: Option<WatchKey>)
    requires FetchRel(c, r, f) && CreateWatchRel(c, r, c', chan, cancel)
    ensures c'.chans[chan].buf != [] ==> f.Fetched? && SameAnswer(f.response, c'.chans[chan].buf[0])
    ensures !c.ads ==> (f.Fetched? <==> c'.chans[chan].buf != [])
    ensures f.Fetched? && c'.chans[chan].buf == [] <==>
              !UpToDate(c, r) && Held(c.ads, r, GetResources(c.snapshots[NodeId(r)], r.typeUrl))
  {
    if c'.chans[chan].buf != [] {
      var g := Group(c.snapshots[NodeId(r)], r.typeUrl);
      assert Answers(c'.chans[chan].buf[0], r, g);
      assert Lists(Requested(r, g.items), f.response.resources);
    }
  }
}
