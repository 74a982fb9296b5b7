/** The streaming server over the cache (pkg/server/server.go), as a state machine of any number of
    streams, one cache and one updater, with interleaved steps.

    A step is what one goroutine does between two points where it may be overtaken: everything done
    under the cache mutex is one step, so cancelling an old watch and creating the new one are two. */
module Protocol {
  import opened Xds
  import opened SnapshotCache
  import opened Nonces

  /** One slot of a stream: response channel, cancel function, last nonce. The request that the channel
      was created for is kept as history. */
  datatype Slot = Slot(chan: Option<nat>, cancel: Option<WatchKey>, nonce: string, request: Option<Request>)

  const NO_SLOT := Slot(None, None, "", None)

  const NO_SLOTS: map<Kind, Slot> := map k: Kind | true :: NO_SLOT

  type Slots = m: map<Kind, Slot> | forall k: Kind :: k in m witness NO_SLOTS

  /** Where the loop of process stands. Creating: the old watch is cancelled, the new one not yet
      created. Closing(i): the deferred Cancel has i slots behind it. */
  datatype Phase = Selecting | Creating(kind: Kind, request: Request) | Closing(next: nat) | Closed

  /** A response handed to the transport (history). */
  datatype Sent = Sent(kind: Kind, nonce: string, response: Response)

  datatype Stream = Stream(defaultType: TypeUrl, slots: Slots, streamNonce: nat, phase: Phase, log: seq<Sent>)

  datatype System = System(cache: CacheState, streams: map<nat, Stream>)

  /******* Steps *******/

  /** What arrives on the request channel: it is closed, a nil request, or a request. */
  datatype Input = Ended | NilRequest | Got(request: Request)

  datatype Outcome = Delivered | MarshalFailed | SendFailed

  datatype Step =
    | OpenStream(sid: nat, defaultType: TypeUrl)
    | Receive(sid: nat, input: Input)
    | Create(sid: nat, chan: nat, cancel: Option<WatchKey>)
    | Deliver(sid: nat, kind: Kind, outcome: Outcome)
    | Release(sid: nat)
    | SetSnapshot(node: string, snapshot: Snapshot)
    | Clear(node: string)

  function Rank(k: Kind): (i: nat)
    ensures i < 5
  {
    match k
    case Endpoints => 0
    case Clusters => 1
    case Routes => 2
    case Listeners => 3
    case Secrets => 4
  }

  function KindAt(i: nat): (k: Kind)
    requires i < 5
    ensures Rank(k) == i
  {
    [Endpoints, Clusters, Routes, Listeners, Secrets][i]
  }

  function CancelIf(c: CacheState, cancel: Option<WatchKey>): CacheState {
    if cancel.Some? then Cancel(c, cancel.value) else c
  }

  /** The type URL is implicit on a stream of one type. */
  function Typed(st: Stream, r: Request): Request {
    if r.typeUrl == AnyType then r.(typeUrl := st.defaultType) else r
  }

  /** The nonce check: a slot without a nonce takes any request, otherwise the nonce must be the last one. */
  predicate Accepts(st: Stream, r: Request) {
    && r.typeUrl.Of?
    && var nonce := st.slots[r.typeUrl.kind].nonce;
       nonce == "" || nonce == r.nonce
  }

  function CacheAfterReceive(c: CacheState, st: Stream, input: Input): CacheState {
    if input.Got? && Accepts(st, Typed(st, input.request))
    then CancelIf(c, st.slots[Typed(st, input.request).typeUrl.kind].cancel)
    else c
  }

  function StreamAfterReceive(st: Stream, input: Input): Stream {
    if !input.Got? || Typed(st, input.request).typeUrl == AnyType then st.(phase := Closing(0))
    else
      var r := Typed(st, input.request);
      if Accepts(st, r) then st.(phase := Creating(r.typeUrl.kind, r)) else st
  }

  function StreamAfterCreate(st: Stream, chan: nat, cancel: Option<WatchKey>): Stream
    requires st.phase.Creating?
  {
    var k := st.phase.kind;
    var slot := st.slots[k].(chan := Some(chan), cancel := cancel, request := Some(st.phase.request));
    st.(phase := Selecting, slots := st.slots[k := slot])
  }

  predicate HasResponse(c: CacheState, slot: Slot) {
    slot.chan.Some? && slot.chan.value < |c.chans| && c.chans[slot.chan.value].buf != []
  }

  function Pop(c: CacheState, ch: nat): CacheState
    requires ch < |c.chans| && c.chans[ch].buf != []
  {
    c.(chans := c.chans[ch := c.chans[ch].(buf := c.chans[ch].buf[1..])])
  }

  /** send: a marshalling error leaves the nonce alone, a transport error does not; both end the stream. */
  function StreamAfterDeliver(st: Stream, kind: Kind, resp: Response, outcome: Outcome): Stream {
    if outcome == MarshalFailed then st.(phase := Closing(0))
    else
      var nonce := Decimal(st.streamNonce + 1);
      var sent := st.(streamNonce := st.streamNonce + 1, log := st.log + [Sent(kind, nonce, resp)]);
      if outcome == SendFailed then sent.(phase := Closing(0))
      else sent.(slots := st.slots[kind := st.slots[kind].(nonce := nonce)])
  }

  function StreamAfterRelease(st: Stream): Stream
    requires st.phase.Closing?
  {
    st.(phase := if st.phase.next < 4 then Closing(st.phase.next + 1) else Closed)
  }

  ghost predicate Init(s: System) {
    && s.cache.snapshots == map[] && s.cache.status == map[] && s.cache.watchCount == 0 && s.cache.chans == []
    && s.streams == map[]
  }

  ghost predicate Next(s: System, step: Step, s': System) {
    match step
    case OpenStream(sid, t) =>
      && sid !in s.streams
      && s' == s.(streams := s.streams[sid := Stream(t, NO_SLOTS, 0, Selecting, [])])
    case Receive(sid, input) =>
      && sid in s.streams && s.streams[sid].phase == Selecting
      && s' == System(CacheAfterReceive(s.cache, s.streams[sid], input),
                      s.streams[sid := StreamAfterReceive(s.streams[sid], input)])
    case Create(sid, chan, cancel) =>
      && sid in s.streams && s.streams[sid].phase.Creating?
      && CreateWatchRel(s.cache, s.streams[sid].phase.request, s'.cache, chan, cancel)
      && s'.streams == s.streams[sid := StreamAfterCreate(s.streams[sid], chan, cancel)]
    case Deliver(sid, kind, outcome) =>
      && sid in s.streams && s.streams[sid].phase == Selecting
      && HasResponse(s.cache, s.streams[sid].slots[kind])
      && var ch := s.streams[sid].slots[kind].chan.value;
         s' == System(Pop(s.cache, ch),
                      s.streams[sid := StreamAfterDeliver(s.streams[sid], kind, s.cache.chans[ch].buf[0], outcome)])
    case Release(sid) =>
      && sid in s.streams && s.streams[sid].phase.Closing? && s.streams[sid].phase.next < 5
      && s' == System(CancelIf(s.cache, s.streams[sid].slots[KindAt(s.streams[sid].phase.next)].cancel),
                      s.streams[sid := StreamAfterRelease(s.streams[sid])])
    case SetSnapshot(node, snap) =>
      && SetSnapshotRel(s.cache, node, snap, s'.cache)
      && s'.streams == s.streams
    case Clear(node) =>
      s' == s.(cache := ClearSnapshot(s.cache, node))
  }

  /** A finite run from the start: states[i] is left by steps[i]. */
  ghost predicate IsRun(states: seq<System>, steps: seq<Step>) {
    && |states| == |steps| + 1
    && Init(states[0])
    && forall i :: 0 <= i < |steps| ==> Next(states[i], steps[i], states[i + 1])
  }

  /** Step i of a run. */
  ghost predicate RunStep(states: seq<System>, steps: seq<Step>, i: nat) {
    IsRun(states, steps) && i < |steps| && Next(states[i], steps[i], states[i + 1])
  }

  /******* Ownership of watches *******/

  /** The stream still answers for the slot: its cancel function is yet to be called. */
  predicate Holds(p: Phase, kind: Kind) {
    match p
    case Selecting => true
    case Creating(k, _) => k != kind
    case Closing(next) => next <= Rank(kind)
    case Closed => false
  }

  datatype Owner = Owner(sid: nat, kind: Kind)

  ghost predicate Owns(s: System, o: Owner, k: WatchKey)
    requires Open(s.cache, k)
  {
    && o.sid in s.streams
    && Holds(s.streams[o.sid].phase, o.kind)
    && var slot := s.streams[o.sid].slots[o.kind];
       && slot.cancel == Some(k)
       && slot.chan == Some(WatchAt(s.cache, k).response)
       && slot.request == Some(WatchAt(s.cache, k).request)
  }

  ghost predicate SlotOk(s: System, o: Owner)
    requires o.sid in s.streams
  {
    var slot := s.streams[o.sid].slots[o.kind];
    && (slot.chan.Some? ==> slot.chan.value < |s.cache.chans|)
    && (slot.cancel.Some? ==> slot.cancel.value.id <= s.cache.watchCount)
    && (slot.request.Some? <==> slot.chan.Some?)
  }

  /** Two slots share neither a channel nor a watch id. */
  ghost predicate Apart(s: System, o: Owner, p: Owner)
    requires o.sid in s.streams && p.sid in s.streams
  {
    var a, b := s.streams[o.sid].slots[o.kind], s.streams[p.sid].slots[p.kind];
    && (a.chan.Some? && b.chan.Some? ==> a.chan.value != b.chan.value)
    && (a.cancel.Some? && b.cancel.Some? ==> a.cancel.value.id != b.cancel.value.id)
  }

  ghost predicate SlotsInv(s: System) {
    && (forall o: Owner :: o.sid in s.streams ==> SlotOk(s, o))
    && (forall o: Owner, p: Owner :: o.sid in s.streams && p.sid in s.streams && o != p ==> Apart(s, o, p))
  }

  /** owner assigns to the id of every open watch the slot that will cancel it. */
  ghost predicate OwnerInv(s: System, owner: map<nat, Owner>) {
    forall k :: Open(s.cache, k) ==> k.id in owner && Owns(s, owner[k.id], k)
  }

  /** The slots of s' hold the same channels, watch ids and requests as those of s. */
  ghost predicate SameSlots(s: System, s': System) {
    && s'.streams.Keys == s.streams.Keys
    && |s'.cache.chans| == |s.cache.chans| && s'.cache.watchCount == s.cache.watchCount
    && forall o: Owner :: o.sid in s.streams ==>
         var a, b := s.streams[o.sid].slots[o.kind], s'.streams[o.sid].slots[o.kind];
         a.chan == b.chan && a.cancel == b.cancel && a.request == b.request
  }

  lemma SameSlotsStep(s: System, step: Step, s': System)
    requires Next(s, step, s') && !step.OpenStream? && !step.Create?
    ensures SameSlots(s, s')
  {
  }

  lemma SlotsInvSame(s: System, s': System)
    requires SlotsInv(s) && SameSlots(s, s')
    ensures SlotsInv(s')
  {
    forall o: Owner | o.sid in s'.streams ensures SlotOk(s', o) { assert SlotOk(s, o); }
    forall o: Owner, p: Owner | o.sid in s'.streams && p.sid in s'.streams && o != p ensures Apart(s', o, p) {
      assert Apart(s, o, p);
    }
  }

  /** CreateWatch gives one slot a new channel, and a new watch id or none; the other slots keep theirs. */
  lemma SlotAfterCreate(s: System, step: Step, s': System, o: Owner)
    requires Next(s, step, s') && step.Create? && o.sid in s.streams
    ensures o.sid in s'.streams
    ensures |s'.cache.chans| > |s.cache.chans| && s'.cache.watchCount >= s.cache.watchCount
    ensures var slot := s'.streams[o.sid].slots[o.kind];
            if o == Owner(step.sid, s.streams[step.sid].phase.kind) then
              && slot.chan == Some(|s.cache.chans|) && slot.request.Some?
              && (slot.cancel.Some? ==> s.cache.watchCount < slot.cancel.value.id <= s'.cache.watchCount)
            else slot == s.streams[o.sid].slots[o.kind]
  {
  }

  lemma SlotsInvCreate(s: System, step: Step, s': System)
    requires SlotsInv(s) && Next(s, step, s') && step.Create?
    ensures SlotsInv(s')
  {
    assert s'.streams.Keys == s.streams.Keys;
    forall o: Owner | o.sid in s'.streams ensures SlotOk(s', o) {
      SlotAfterCreate(s, step, s', o);
      assert SlotOk(s, o);
    }
    forall o: Owner, p: Owner | o.sid in s'.streams && p.sid in s'.streams && o != p ensures Apart(s', o, p) {
      SlotAfterCreate(s, step, s', o);
      SlotAfterCreate(s, step, s', p);
      assert SlotOk(s, o) && SlotOk(s, p) && Apart(s, o, p);
    }
  }

  lemma SlotsInvOpen(s: System, step: Step, s': System)
    requires SlotsInv(s) && Next(s, step, s') && step.OpenStream?
    ensures SlotsInv(s')
  {
    forall o: Owner | o.sid in s'.streams ensures SlotOk(s', o) {
      if o.sid in s.streams { assert SlotOk(s, o); }
    }
    forall o: Owner, p: Owner | o.sid in s'.streams && p.sid in s'.streams && o != p ensures Apart(s', o, p) {
      if o.sid in s.streams && p.sid in s.streams { assert Apart(s, o, p); }
    }
  }

  lemma SlotsInvStep(s: System, step: Step, s': System)
    requires SlotsInv(s) && Next(s, step, s')
    ensures SlotsInv(s')
  {
    if step.OpenStream? {
      SlotsInvOpen(s, step, s');
    } else if step.Create? {
      SlotsInvCreate(s, step, s');
    } else {
      SameSlotsStep(s, step, s');
      SlotsInvSame(s, s');
    }
  }

  lemma CacheInvStep(s: System, step: Step, s': System)
    requires CacheInv(s.cache) && Next(s, step, s')
    ensures CacheInv(s'.cache)
  {
    match step
    case OpenStream(sid, t) =>
    case Receive(sid, input) =>
      if s'.cache != s.cache {
        CancelSafe(s.cache, s.streams[sid].slots[Typed(s.streams[sid], input.request).typeUrl.kind].cancel.value);
      }
    case Create(sid, chan, cancel) =>
      CacheInvCreateWatch(s.cache, s.streams[sid].phase.request, s'.cache, chan, cancel);
    case Deliver(sid, kind, outcome) =>
      CacheInvPop(s.cache, s.streams[sid].slots[kind].chan.value);
    case Release(sid) =>
      if s'.cache != s.cache {
        CancelSafe(s.cache, s.streams[sid].slots[KindAt(s.streams[sid].phase.next)].cancel.value);
      }
    case SetSnapshot(node, snap) =>
      CacheInvSetSnapshot(s.cache, node, snap, s'.cache);
    case Clear(node) =>
      CacheInvClear(s.cache, node);
  }

  lemma CacheInvPop(c: CacheState, ch: nat)
    requires CacheInv(c) && ch < |c.chans| && c.chans[ch].buf != []
    ensures CacheInv(Pop(c, ch))
  {
    var d := Pop(c, ch);
    forall k | Open(d, k) ensures WatchOk(d, k) { assert WatchOk(c, k); }
    forall j, k | Open(d, j) && Open(d, k) && SameWatch(d, j, k) ensures j == k { assert SameWatch(c, j, k); }
    assert ChannelOk(c.chans[ch]);
  }
}
