/** No update is lost: when exactly a request can end up without an answer. */
module Delivery {
  import opened Xds
  import opened SnapshotCache
  import opened Protocol
  import opened Safety

  /** The slot is in use: its stream is not ending and is not replacing the slot's watch. */
  predicate InUse(p: Phase, kind: Kind) {
    p.Selecting? || (p.Creating? && p.kind != kind)
  }

  function SlotOf(s: System, o: Owner): Slot
    requires o.sid in s.streams
  {
    s.streams[o.sid].slots[o.kind]
  }

  predicate Used(s: System, o: Owner) {
    o.sid in s.streams && InUse(s.streams[o.sid].phase, o.kind) && SlotOf(s, o).chan.Some?
  }

  /** The watch of the slot is open. */
  predicate Waits(s: System, o: Owner)
    requires o.sid in s.streams
  {
    SlotOf(s, o).cancel.Some? && Open(s.cache, SlotOf(s, o).cancel.value)
  }

  /** The open watch that the slot waits on. */
  function WatchOf(s: System, o: Owner): Watch
    requires o.sid in s.streams && Waits(s, o)
  {
    WatchAt(s.cache, SlotOf(s, o).cancel.value)
  }

  /** The slot waits on a channel that nobody will ever send to. */
  predicate Lost(s: System, o: Owner) {
    && Used(s, o)
    && SlotOf(s, o).chan.value < |s.cache.chans|
    && s.cache.chans[SlotOf(s, o).chan.value].sends == 0
    && !Waits(s, o)
  }

  /** The step takes the slot's answer away: it clears the node of an open watch, or it holds back the
      answer of an ADS request. Decided before the step. */
  ghost predicate Drops(s: System, step: Step, o: Owner)
    requires o.sid in s.streams
  {
    match step
    case Create(_, _, _) =>
      Renews(s, step, o) &&
      var r := s.streams[o.sid].phase.request;
      !UpToDate(s.cache, r) && Held(s.cache.ads, r, GetResources(s.cache.snapshots[NodeId(r)], r.typeUrl))
    case SetSnapshot(node, snap) =>
      Waits(s, o) && SlotOf(s, o).cancel.value.node == node &&
      var w := WatchOf(s, o);
      Stale(w, snap) && Held(s.cache.ads, w.request, GetResources(snap, w.request.typeUrl))
    case Clear(node) => Waits(s, o) && SlotOf(s, o).cancel.value.node == node
    case _ => false
  }

  /** The step gives the slot a new channel. */
  predicate Renews(s: System, step: Step, o: Owner) {
    step.Create? && step.sid == o.sid && o.sid in s.streams && s.streams[o.sid].phase.Creating? &&
    s.streams[o.sid].phase.kind == o.kind
  }

  lemma OwnWatch(s: System, o: Owner)
    requires Inv(s) && o.sid in s.streams && Waits(s, o)
    ensures Owns(s, o, SlotOf(s, o).cancel.value) && WatchOk(s.cache, SlotOf(s, o).cancel.value)
  {
    var k := SlotOf(s, o).cancel.value;
    var owner :| OwnerInv(s, owner);
    assert Owns(s, owner[k.id], k);
    assert owner[k.id] == o || Apart(s, owner[k.id], o);
  }

  lemma LostBySetSnapshot(s: System, step: Step, s': System, o: Owner)
    requires Inv(s) && Next(s, step, s') && Used(s', o) && step.SetSnapshot?
    ensures Lost(s', o) <==> Lost(s, o) || Drops(s, step, o)
  {
    assert SlotOk(s, o);
    var slot := SlotOf(s, o);
    if Waits(s, o) {
      OwnWatch(s, o);
      SetSnapshotAnswersExactly(s.cache, step.node, step.snapshot, s'.cache, slot.cancel.value);
    } else {
      var owner :| OwnerInv(s, owner);
      forall k | Fires(s.cache, k, step.node, step.snapshot) ensures WatchAt(s.cache, k).response != slot.chan.value {
        assert Owns(s, owner[k.id], k);
        assert owner[k.id] == o || Apart(s, owner[k.id], o);
      }
      assert Quiet(s.cache, slot.chan.value, step.node, step.snapshot);
    }
  }

  lemma LostByCreate(s: System, step: Step, s': System, o: Owner)
    requires Inv(s) && Next(s, step, s') && Used(s', o) && step.Create?
    ensures Lost(s', o) <==> (Lost(s, o) && !Renews(s, step, o)) || Drops(s, step, o)
  {
    CacheInvCreateWatch(s.cache, s.streams[step.sid].phase.request, s'.cache, step.chan, step.cancel);
    var slot := SlotOf(s', o);
    if !Renews(s, step, o) {
      assert SlotOf(s, o) == slot && SlotOk(s, o);
      assert s'.cache.chans[slot.chan.value] == s'.cache.chans[..step.chan][slot.chan.value];
    }
  }

  /** Cancelling the watch of another slot does not touch this one. */
  lemma WaitsAfterCancel(s: System, s': System, o: Owner, p: Owner)
    requires SlotsInv(s) && SameSlots(s, s') && o.sid in s.streams && p.sid in s.streams && o != p
    requires s'.cache == CancelIf(s.cache, SlotOf(s, p).cancel)
    ensures Waits(s', o) == Waits(s, o)
  {
    assert Apart(s, o, p);
    if SlotOf(s, p).cancel.Some? { CancelSafe(s.cache, SlotOf(s, p).cancel.value); }
  }

  lemma LostByOther(s: System, step: Step, s': System, o: Owner)
    requires Inv(s) && Next(s, step, s') && Used(s', o) && !step.SetSnapshot? && !step.Create? && !step.OpenStream?
    ensures Lost(s', o) <==> Lost(s, o) || Drops(s, step, o)
  {
    SameSlotsStep(s, step, s');
    assert SlotOk(s, o);
    match step
    case Receive(sid, input) =>
      if s'.cache != s.cache {
        WaitsAfterCancel(s, s', o, Owner(sid, Typed(s.streams[sid], input.request).typeUrl.kind));
      }
    case Release(sid) => WaitsAfterCancel(s, s', o, Owner(sid, KindAt(s.streams[sid].phase.next)));
    case Deliver(sid, kind, _) =>
    case Clear(node) => if Waits(s, o) { OwnWatch(s, o); }
  }

  /** A slot in use is lost after a step exactly when it was lost before and not renewed, or the step drops it. */
  lemma LostExactly(s: System, step: Step, s': System, o: Owner)
    requires Inv(s) && Next(s, step, s') && Used(s', o)
    ensures o.sid in s.streams
    ensures Lost(s', o) <==> (Lost(s, o) && !Renews(s, step, o)) || Drops(s, step, o)
  {
    match step
    case SetSnapshot(_, _) => LostBySetSnapshot(s, step, s', o);
    case Create(_, _, _) => LostByCreate(s, step, s', o);
    case OpenStream(_, _) => assert o.sid in s.streams;
    case _ => LostByOther(s, step, s', o);
  }

  /** Step j of the run drops the slot's answer. */
  ghost predicate DropsAt(states: seq<System>, steps: seq<Step>, j: nat, o: Owner)
    requires j < |steps| < |states|
  {
    o.sid in states[j].streams && Drops(states[j], steps[j], o)
  }

  /** Some step before i drops the slot's answer, and none after it renews the slot. */
  ghost predicate DroppedBefore(states: seq<System>, steps: seq<Step>, i: nat, o: Owner)
    requires i <= |steps| < |states|
  {
    exists j :: 0 <= j < i && DropsAt(states, steps, j, o) && forall l :: j < l < i ==> !Renews(states[l], steps[l], o)
  }

  lemma DroppedStep(states: seq<System>, steps: seq<Step>, i: nat, o: Owner)
    requires 0 < i <= |steps| < |states|
    ensures DroppedBefore(states, steps, i, o) <==>
              (DroppedBefore(states, steps, i - 1, o) && !Renews(states[i - 1], steps[i - 1], o))
              || DropsAt(states, steps, i - 1, o)
  {
    if DroppedBefore(states, steps, i - 1, o) && !Renews(states[i - 1], steps[i - 1], o) {
      var j :| 0 <= j < i - 1 && DropsAt(states, steps, j, o) &&
               forall l :: j < l < i - 1 ==> !Renews(states[l], steps[l], o);
      assert forall l :: j < l < i ==> l == i - 1 || !Renews(states[l], steps[l], o);
    }
  }

  /** A slot that comes into use does so by getting its channel. */
  lemma UsedBefore(s: System, step: Step, s': System, o: Owner)
    requires Next(s, step, s') && Used(s', o) && !Renews(s, step, o)
    ensures Used(s, o)
  {
  }

  /** In every run, of whatever mode: a slot in use waits for ever exactly when some step dropped its answer and none
      since gave it a new channel. */
  lemma {:induction false} LostSince(states: seq<System>, steps: seq<Step>, i: nat, o: Owner)
    requires IsRun(states, steps) && i < |states| && Used(states[i], o)
    ensures Lost(states[i], o) <==> DroppedBefore(states, steps, i, o)
  {
    RunInv(states, steps, i - 1);
    var s, step, s' := states[i - 1], steps[i - 1], states[i];
    assert Next(s, step, s');
    LostExactly(s, step, s', o);
    DroppedStep(states, steps, i, o);
    if !Renews(s, step, o) {
      UsedBefore(s, step, s', o);
      LostSince(states, steps, i - 1, o);
    }
  }

  /** The answer to the slot's request has been taken out of its channel. */
  predicate Answered(s: System, o: Owner)
    requires Used(s, o)
  {
    var ch := SlotOf(s, o).chan.value;
    ch < |s.cache.chans| && s.cache.chans[ch].sends == 1 && s.cache.chans[ch].buf == []
  }

  /** Exactly when an update is lost, over all runs: while a slot's latest request is unanswered and the stored version
      of its type differs from the requested one, its response already waits in its channel, unless some step dropped
      the answer and none since renewed the slot. */
  lemma UpdateWaitsExactly(states: seq<System>, steps: seq<Step>, i: nat, o: Owner, r: Request)
    requires IsRun(states, steps) && i < |states|
    requires Used(states[i], o) && SlotOf(states[i], o).request == Some(r) && !Answered(states[i], o)
    requires !UpToDate(states[i].cache, r)
    ensures HasResponse(states[i].cache, SlotOf(states[i], o)) <==> !DroppedBefore(states, steps, i, o)
    ensures HasResponse(states[i].cache, SlotOf(states[i], o)) ==>
              Waiting(states[i].cache, SlotOf(states[i], o)).request == r
  {
    var s := states[i];
    RunInv(states, steps, i);
    LostSince(states, steps, i, o);
    assert SlotOk(s, o) && AnswerAt(s, o);
    assert ChannelOk(s.cache.chans[SlotOf(s, o).chan.value]);
    if Waits(s, o) {
      OwnWatch(s, o);
      assert false;
    }
  }

  /** A run in which nothing is ever dropped: no ADS mode and no ClearSnapshot. */
  ghost predicate Plain(states: seq<System>, steps: seq<Step>)
    requires |states| == |steps| + 1
  {
    !states[0].cache.ads && forall i :: 0 <= i < |steps| ==> !steps[i].Clear?
  }

  /** No lost update: without ADS mode and ClearSnapshot the response always waits. */
  lemma NoLostUpdate(states: seq<System>, steps: seq<Step>, i: nat, o: Owner, r: Request)
    requires IsRun(states, steps) && Plain(states, steps) && i < |states|
    requires Used(states[i], o) && SlotOf(states[i], o).request == Some(r) && !Answered(states[i], o)
    requires !UpToDate(states[i].cache, r)
    ensures HasResponse(states[i].cache, SlotOf(states[i], o))
    ensures Waiting(states[i].cache, SlotOf(states[i], o)).request == r
  {
    UpdateWaitsExactly(states, steps, i, o, r);
    forall j | 0 <= j < i ensures !DropsAt(states, steps, j, o) {
      ModeStays(states, steps, j);
      assert !steps[j].Clear?;
    }
  }

  /** Outside such runs the property fails: clear the node of an open watch, store any snapshot with another
      version, and the slot waits for ever on an empty channel. */
  lemma ClearLosesUpdate(s: System, s1: System, s2: System, o: Owner, snap: Snapshot)
    requires Inv(s) && Used(s, o) && Waits(s, o) && Stale(WatchOf(s, o), snap)
    requires var node := SlotOf(s, o).cancel.value.node;
             Next(s, Clear(node), s1) && Next(s1, SetSnapshot(node, snap), s2)
    ensures Used(s2, o) && SlotOf(s2, o).request == Some(WatchOf(s, o).request) && !Answered(s2, o)
    ensures !UpToDate(s2.cache, WatchOf(s, o).request)
    ensures Lost(s2, o) && !HasResponse(s2.cache, SlotOf(s2, o))
  {
    var node := SlotOf(s, o).cancel.value.node;
    OwnWatch(s, o);
    LostExactly(s, Clear(node), s1, o);
    InvStep(s, Clear(node), s1);
    LostExactly(s1, SetSnapshot(node, snap), s2, o);
    InvStep(s1, SetSnapshot(node, snap), s2);
    assert ChannelOk(s2.cache.chans[SlotOf(s2, o).chan.value]);
  }

  /** Such a run from the start: open a stream, ask for endpoints, clear the node, store a snapshot. */
  lemma ClearLosesUpdateRun() returns (states: seq<System>, steps: seq<Step>, o: Owner, r: Request)
    ensures IsRun(states, steps) && |steps| == 5
    ensures Used(states[5], o) && SlotOf(states[5], o).request == Some(r) && !Answered(states[5], o)
    ensures !UpToDate(states[5].cache, r)
    ensures Lost(states[5], o) && !HasResponse(states[5].cache, SlotOf(states[5], o))
  {
    o := Owner(0, Endpoints);
    r := Request(Some("n"), Of(Endpoints), "", [], "");
    var k := WatchKey("n", 1);
    var snap := Snapshot(ResourceGroup("v", map[]), NO_GROUP, NO_GROUP, NO_GROUP, NO_GROUP);
    assert "v" != "";
    var c0 := CacheState(false, map[], map[], 0, []);
    var c1 := CacheState(false, map[], map["n" := map[1 := Watch(r, 0)]], 1, [FRESH]);
    var c2 := ClearSnapshot(c1, "n");
    var c3 := c2.(snapshots := map["n" := snap]);
    var st0 := Stream(Of(Endpoints), NO_SLOTS, 0, Selecting, []);
    var st1 := StreamAfterReceive(st0, Got(r));
    var st2 := StreamAfterCreate(st1, 0, Some(k));
    states := [System(c0, map[]), System(c0, map[0 := st0]), System(c0, map[0 := st1]), System(c1, map[0 := st2]),
               System(c2, map[0 := st2]), System(c3, map[0 := st2])];
    steps := [OpenStream(0, Of(Endpoints)), Receive(0, Got(r)), Create(0, 0, Some(k)), Clear("n"),
              SetSnapshot("n", snap)];
    CreatesFirstWatch(c0, r, c1);
    assert Next(states[2], steps[2], states[3]);
    assert forall j :: !Open(c2, j);
    assert Next(states[4], steps[4], states[5]);
    assert Next(states[0], steps[0], states[1]) && Next(states[1], steps[1], states[2]);
    assert Next(states[3], steps[3], states[4]);
  }

  lemma CreatesFirstWatch(c: CacheState, r: Request, c': CacheState)
    requires c == CacheState(false, map[], map[], 0, [])
    requires c' == CacheState(false, map[], map[NodeId(r) := map[1 := Watch(r, 0)]], 1, [FRESH])
    ensures CreateWatchRel(c, r, c', 0, Some(WatchKey(NodeId(r), 1)))
  {
    var none: map<nat, Watch> := map[];
    assert none[1 := Watch(r, 0)] == map[1 := Watch(r, 0)];
  }
}
