/** What holds in every state of every run of the protocol: no leaked watch, fresh watches, at most one
    send per channel, safe cancellation, exact responses, nonce discipline. */
module Safety {
  import opened Xds
  import opened SnapshotCache
  import opened Nonces
  import opened Protocol

  /******* Ownership is kept by every step *******/

  /** Watches may go away; the streams keep their slots and still answer for the watches that stay. */
  lemma OwnerInvShrink(s: System, s': System, owner: map<nat, Owner>)
    requires OwnerInv(s, owner) && SameSlots(s, s')
    requires forall k :: Open(s'.cache, k) ==> Open(s.cache, k) && WatchAt(s'.cache, k) == WatchAt(s.cache, k)
    requires forall k :: Open(s'.cache, k) && k.id in owner && owner[k.id].sid in s.streams ==>
               Holds(s'.streams[owner[k.id].sid].phase, owner[k.id].kind)
    ensures OwnerInv(s', owner)
  {
    forall k | Open(s'.cache, k) ensures k.id in owner && Owns(s', owner[k.id], k) {
      assert Owns(s, owner[k.id], k);
    }
  }

  /** Calling the cancel function of a slot leaves no open watch that the slot owns. */
  lemma CancelledSlotOwnsNothing(s: System, owner: map<nat, Owner>, o: Owner, k: WatchKey)
    requires OwnerInv(s, owner) && o.sid in s.streams
    requires Open(CancelIf(s.cache, s.streams[o.sid].slots[o.kind].cancel), k)
    ensures Open(s.cache, k)
    ensures WatchAt(CancelIf(s.cache, s.streams[o.sid].slots[o.kind].cancel), k) == WatchAt(s.cache, k)
    ensures k.id in owner && owner[k.id] != o
  {
    var cancel := s.streams[o.sid].slots[o.kind].cancel;
    if cancel.Some? { CancelSafe(s.cache, cancel.value); }
    assert Owns(s, owner[k.id], k);
  }

  lemma OwnerInvReceive(s: System, step: Step, s': System, owner: map<nat, Owner>)
    requires OwnerInv(s, owner) && Next(s, step, s') && step.Receive?
    ensures OwnerInv(s', owner)
  {
    SameSlotsStep(s, step, s');
    var st := s.streams[step.sid];
    if step.input.Got? && Accepts(st, Typed(st, step.input.request)) {
      var it := Owner(step.sid, Typed(st, step.input.request).typeUrl.kind);
      forall k | Open(s'.cache, k)
        ensures Open(s.cache, k) && WatchAt(s'.cache, k) == WatchAt(s.cache, k) && k.id in owner && owner[k.id] != it
      {
        CancelledSlotOwnsNothing(s, owner, it, k);
      }
      forall k | Open(s'.cache, k) && k.id in owner && owner[k.id].sid in s.streams
        ensures Holds(s'.streams[owner[k.id].sid].phase, owner[k.id].kind)
      {
        assert Owns(s, owner[k.id], k);
      }
    } else {
      forall k | Open(s'.cache, k) && k.id in owner && owner[k.id].sid in s.streams
        ensures Holds(s'.streams[owner[k.id].sid].phase, owner[k.id].kind)
      {
        assert Owns(s, owner[k.id], k);
      }
    }
    OwnerInvShrink(s, s', owner);
  }

  lemma OwnerInvRelease(s: System, step: Step, s': System, owner: map<nat, Owner>)
    requires OwnerInv(s, owner) && Next(s, step, s') && step.Release?
    ensures OwnerInv(s', owner)
  {
    SameSlotsStep(s, step, s');
    var it := Owner(step.sid, KindAt(s.streams[step.sid].phase.next));
    forall k | Open(s'.cache, k)
      ensures Open(s.cache, k) && WatchAt(s'.cache, k) == WatchAt(s.cache, k) && k.id in owner && owner[k.id] != it
    {
      CancelledSlotOwnsNothing(s, owner, it, k);
    }
    forall k | Open(s'.cache, k) && k.id in owner && owner[k.id].sid in s.streams
      ensures Holds(s'.streams[owner[k.id].sid].phase, owner[k.id].kind)
    {
      assert Owns(s, owner[k.id], k);
    }
    OwnerInvShrink(s, s', owner);
  }

  lemma OwnerInvCreate(s: System, step: Step, s': System, owner: map<nat, Owner>) returns (owner': map<nat, Owner>)
    requires CacheInv(s.cache) && OwnerInv(s, owner) && Next(s, step, s') && step.Create?
    ensures OwnerInv(s', owner')
  {
    var it := Owner(step.sid, s.streams[step.sid].phase.kind);
    CacheInvCreateWatch(s.cache, s.streams[step.sid].phase.request, s'.cache, step.chan, step.cancel);
    owner' := if step.cancel.Some? then owner[step.cancel.value.id := it] else owner;
    forall k | Open(s'.cache, k) ensures k.id in owner' && Owns(s', owner'[k.id], k) {
      if Open(s.cache, k) {
        assert WatchOk(s.cache, k);
        assert Owns(s, owner[k.id], k);
        assert owner[k.id] != it;
        assert owner'[k.id] == owner[k.id];
      }
    }
  }

  lemma OwnerInvStep(s: System, step: Step, s': System, owner: map<nat, Owner>) returns (owner': map<nat, Owner>)
    requires CacheInv(s.cache) && OwnerInv(s, owner) && Next(s, step, s')
    ensures OwnerInv(s', owner')
  {
    owner' := owner;
    match step
    case Receive(_, _) => OwnerInvReceive(s, step, s', owner);
    case Release(_) => OwnerInvRelease(s, step, s', owner);
    case Create(_, _, _) => owner' := OwnerInvCreate(s, step, s', owner);
    case _ =>
      forall k | Open(s'.cache, k) ensures k.id in owner && Owns(s', owner[k.id], k) {
        assert Owns(s, owner[k.id], k);
      }
  }

  /******* What waits in a slot answers the request of that slot *******/

  function Waiting(c: CacheState, slot: Slot): Response
    requires HasResponse(c, slot)
  {
    c.chans[slot.chan.value].buf[0]
  }

  ghost predicate AnswerAt(s: System, o: Owner)
    requires o.sid in s.streams
  {
    var slot := s.streams[o.sid].slots[o.kind];
    HasResponse(s.cache, slot) ==> slot.request == Some(Waiting(s.cache, slot).request)
  }

  ghost predicate AnswerInv(s: System) {
    forall o: Owner :: o.sid in s.streams ==> AnswerAt(s, o)
  }

  lemma AnswerInvSetSnapshot(s: System, step: Step, s': System, owner: map<nat, Owner>)
    requires CacheInv(s.cache) && SlotsInv(s) && OwnerInv(s, owner) && AnswerInv(s)
    requires Next(s, step, s') && step.SetSnapshot?
    ensures AnswerInv(s')
  {
    forall o: Owner | o.sid in s'.streams ensures AnswerAt(s', o) {
      var slot := s.streams[o.sid].slots[o.kind];
      assert AnswerAt(s, o) && SlotOk(s, o);
      if slot.chan.Some? && !Quiet(s.cache, slot.chan.value, step.node, step.snapshot) {
        var k :| Fires(s.cache, k, step.node, step.snapshot) && WatchAt(s.cache, k).response == slot.chan.value;
        assert WatchOk(s.cache, k) && Owns(s, owner[k.id], k);
        assert owner[k.id] == o || Apart(s, owner[k.id], o);
        SetSnapshotAnswersExactly(s.cache, step.node, step.snapshot, s'.cache, k);
      }
    }
  }

  lemma AnswerInvCreate(s: System, step: Step, s': System)
    requires SlotsInv(s) && AnswerInv(s) && Next(s, step, s') && step.Create?
    ensures AnswerInv(s')
  {
    forall o: Owner | o.sid in s'.streams ensures AnswerAt(s', o) {
      assert AnswerAt(s, o) && SlotOk(s, o);
      var slot := s'.streams[o.sid].slots[o.kind];
      if slot.chan.Some? && slot.chan.value != step.chan {
        assert s'.cache.chans[slot.chan.value] == s'.cache.chans[..step.chan][slot.chan.value];
      }
    }
  }

  lemma AnswerInvDeliver(s: System, step: Step, s': System)
    requires CacheInv(s.cache) && AnswerInv(s) && Next(s, step, s') && step.Deliver?
    ensures AnswerInv(s')
  {
    assert ChannelOk(s.cache.chans[s.streams[step.sid].slots[step.kind].chan.value]);
    forall o: Owner | o.sid in s'.streams ensures AnswerAt(s', o) { assert AnswerAt(s, o); }
  }

  lemma AnswerInvStep(s: System, step: Step, s': System, owner: map<nat, Owner>)
    requires CacheInv(s.cache) && SlotsInv(s) && OwnerInv(s, owner) && AnswerInv(s) && Next(s, step, s')
    ensures AnswerInv(s')
  {
    match step
    case SetSnapshot(_, _) => AnswerInvSetSnapshot(s, step, s', owner);
    case Create(_, _, _) => AnswerInvCreate(s, step, s');
    case Deliver(_, _, _) => AnswerInvDeliver(s, step, s');
    case _ =>
      forall o: Owner | o.sid in s'.streams ensures AnswerAt(s', o) {
        if o.sid in s.streams { assert AnswerAt(s, o); }
      }
  }

  /******* Runs *******/

  ghost predicate Inv(s: System) {
    && CacheInv(s.cache)
    && SlotsInv(s)
    && AnswerInv(s)
    && exists owner :: OwnerInv(s, owner)
  }

  lemma InvStep(s: System, step: Step, s': System)
    requires Inv(s) && Next(s, step, s')
    ensures Inv(s')
  {
    var owner :| OwnerInv(s, owner);
    CacheInvStep(s, step, s');
    SlotsInvStep(s, step, s');
    AnswerInvStep(s, step, s', owner);
    var owner' := OwnerInvStep(s, step, s', owner);
  }

  lemma {:induction false} RunInv(states: seq<System>, steps: seq<Step>, i: nat)
    requires IsRun(states, steps) && i < |states|
    ensures Inv(states[i])
  {
    if i == 0 {
      assert OwnerInv(states[0], map[]);
    } else {
      RunInv(states, steps, i - 1);
      InvStep(states[i - 1], steps[i - 1], states[i]);
    }
  }

  /** In every reachable state every open watch belongs to exactly one slot of one live stream. */
  lemma NoWatchLeak(states: seq<System>, steps: seq<Step>, i: nat, k: WatchKey)
    requires IsRun(states, steps) && i < |states| && Open(states[i].cache, k)
    ensures exists o :: Owns(states[i], o, k)
    ensures forall o: Owner, p: Owner :: Owns(states[i], o, k) && Owns(states[i], p, k) ==> o == p
  {
    RunInv(states, steps, i);
    var s := states[i];
    var owner :| OwnerInv(s, owner);
    assert Owns(s, owner[k.id], k);
    forall o: Owner, p: Owner | Owns(s, o, k) && Owns(s, p, k) ensures o == p {
      assert o == p || Apart(s, o, p);
    }
  }

  /** Step j of the run opened watch k, for stream sid. */
  ghost predicate Creates(steps: seq<Step>, j: nat, sid: nat, k: WatchKey)
    requires j < |steps|
  {
    steps[j].Create? && steps[j].sid == sid && steps[j].cancel == Some(k)
  }

  /** Stream sid opened watch k at some step before i. */
  ghost predicate CreatedBy(steps: seq<Step>, i: nat, sid: nat, k: WatchKey)
    requires i <= |steps|
  {
    exists j :: 0 <= j < i && Creates(steps, j, sid, k)
  }

  predicate HasId(s: System, o: Owner, id: nat) {
    o.sid in s.streams && var cancel := s.streams[o.sid].slots[o.kind].cancel; cancel.Some? && cancel.value.id == id
  }

  /** No slot of another stream carries the id of the watch. */
  ghost predicate OnlyWith(s: System, sid: nat, id: nat) {
    forall o: Owner :: HasId(s, o, id) ==> o.sid == sid
  }

  lemma OnlyWithStep(s: System, step: Step, s': System, sid: nat, id: nat)
    requires Next(s, step, s') && OnlyWith(s, sid, id) && id <= s.cache.watchCount
    ensures OnlyWith(s', sid, id)
  {
    forall o: Owner | HasId(s', o, id) ensures o.sid == sid {
      if step.Create? {
        SlotAfterCreate(s, step, s', o);
      } else if !step.OpenStream? {
        SameSlotsStep(s, step, s');
      }
      assert HasId(s, o, id);
    }
  }

  /** From the step that opens a watch on, only slots of the stream that opened it ever carry its id. */
  lemma {:induction false} CreatorKeepsId(states: seq<System>, steps: seq<Step>, j: nat, i: nat, sid: nat, k: WatchKey)
    requires IsRun(states, steps) && j < i < |states| && Creates(steps, j, sid, k)
    ensures OnlyWith(states[i], sid, k.id) && k.id <= states[i].cache.watchCount
    decreases i
  {
    if i == j + 1 {
      RunInv(states, steps, i);
      assert Next(states[j], steps[j], states[i]);
      var it := Owner(sid, states[j].streams[sid].phase.kind);
      assert states[i].streams[sid].slots[it.kind].cancel == Some(k);
      assert SlotOk(states[i], it);
      forall o: Owner | o.sid in states[i].streams ensures o == it || Apart(states[i], o, it) { }
    } else {
      CreatorKeepsId(states, steps, j, i - 1, sid, k);
      OnlyWithStep(states[i - 1], steps[i - 1], states[i], sid, k.id);
      WatchCountGrows(states, steps, i - 1, i);
    }
  }

  /** A watch that is still open is held by a slot of the stream that opened it. */
  lemma CreatorOwns(states: seq<System>, steps: seq<Step>, i: nat, sid: nat, k: WatchKey) returns (o: Owner)
    requires IsRun(states, steps) && i < |states| && CreatedBy(steps, i, sid, k) && Open(states[i].cache, k)
    ensures o.sid == sid && Owns(states[i], o, k)
  {
    NoWatchLeak(states, steps, i, k);
    o :| Owns(states[i], o, k);
    var j :| 0 <= j < i && Creates(steps, j, sid, k);
    CreatorKeepsId(states, steps, j, i, sid, k);
  }

  /** Every open watch was opened by some step of the run. */
  lemma {:induction false} OpenWasCreated(states: seq<System>, steps: seq<Step>, i: nat, k: WatchKey) returns (j: nat)
    requires IsRun(states, steps) && i < |states| && Open(states[i].cache, k)
    ensures j < i && steps[j].Create? && steps[j].cancel == Some(k)
  {
    RunInv(states, steps, i - 1);
    var s, step, s' := states[i - 1], steps[i - 1], states[i];
    assert Next(s, step, s');
    if Open(s.cache, k) {
      j := OpenWasCreated(states, steps, i - 1, k);
    } else {
      OpensOnlyByCreate(s, step, s', k);
      j := i - 1;
    }
  }

  /** None of a stream's watches survives its exit, on whichever path it returned. */
  lemma NoneSurvivesExit(states: seq<System>, steps: seq<Step>, j: nat, i: nat, k: WatchKey)
    requires IsRun(states, steps) && j < i < |states| && steps[j].Create? && steps[j].cancel == Some(k)
    requires steps[j].sid in states[i].streams && states[i].streams[steps[j].sid].phase == Closed
    ensures !Open(states[i].cache, k)
  {
    if Open(states[i].cache, k) {
      assert Creates(steps, j, steps[j].sid, k);
      var o := CreatorOwns(states, steps, i, steps[j].sid, k);
      assert false;
    }
  }

  /** At most five of all the watches that a stream ever opened are open at any time. */
  lemma WatchesPerStream(states: seq<System>, steps: seq<Step>, i: nat, sid: nat, keys: set<WatchKey>)
    requires IsRun(states, steps) && i < |states| && sid in states[i].streams
    requires forall k :: k in keys ==> Open(states[i].cache, k) && CreatedBy(steps, i, sid, k)
    ensures |keys| <= 5
  {
    var slots := states[i].streams[sid].slots;
    var cancels := [slots[Endpoints].cancel, slots[Clusters].cancel, slots[Routes].cancel,
                    slots[Listeners].cancel, slots[Secrets].cancel];
    forall k | k in keys ensures Some(k) in cancels {
      var o := CreatorOwns(states, steps, i, sid, k);
      assert cancels[Rank(o.kind)] == Some(k);
    }
    AtMostListed(keys, cancels);
  }

  lemma {:induction false} AtMostListed(keys: set<WatchKey>, list: seq<Option<WatchKey>>)
    requires forall k :: k in keys ==> Some(k) in list
    ensures |keys| <= |list|
  {
    if list != [] {
      var rest := if list[0].Some? then keys - {list[0].value} else keys;
      forall k | k in rest ensures Some(k) in list[1..] {
        var j :| 0 <= j < |list| && list[j] == Some(k);
        assert list[1..][j - 1] == Some(k);
      }
      AtMostListed(rest, list[1..]);
    } else {
      assert forall k :: k in keys ==> Some(k) in list;
      assert keys == {};
    }
  }

  /** An open watch is at the version of the stored snapshot, and its channel was never sent to, so
      that a send under the lock does not block; open watches have different channels. */
  lemma WatchesAreFresh(states: seq<System>, steps: seq<Step>, i: nat, k: WatchKey)
    requires IsRun(states, steps) && i < |states| && Open(states[i].cache, k)
    ensures var c := states[i].cache;
            var w := WatchAt(c, k);
            && (k.node in c.snapshots ==> w.request.version == GetVersion(c.snapshots[k.node], w.request.typeUrl))
            && w.response < |c.chans| && c.chans[w.response] == FRESH
            && forall j :: Open(c, j) && WatchAt(c, j).response == w.response ==> j == k
  {
    RunInv(states, steps, i);
    assert WatchOk(states[i].cache, k);
    forall j | Open(states[i].cache, j) && WatchAt(states[i].cache, j).response == WatchAt(states[i].cache, k).response
      ensures j == k
    {
      assert SameWatch(states[i].cache, j, k);
    }
  }

  /** Over a whole run each response channel is sent to at most once. */
  lemma AtMostOneResponse(states: seq<System>, steps: seq<Step>, i: nat, ch: nat)
    requires IsRun(states, steps) && i < |states| && ch < |states[i].cache.chans|
    ensures states[i].cache.chans[ch].sends <= 1 && |states[i].cache.chans[ch].buf| <= 1
  {
    RunInv(states, steps, i);
    assert ChannelOk(states[i].cache.chans[ch]);
  }

  /******* Cancellation *******/

  lemma {:induction false} WatchCountGrows(states: seq<System>, steps: seq<Step>, i: nat, j: nat)
    requires IsRun(states, steps) && i <= j < |states|
    ensures states[i].cache.watchCount <= states[j].cache.watchCount
    decreases j
  {
    if i < j {
      WatchCountGrows(states, steps, i, j - 1);
      assert Next(states[j - 1], steps[j - 1], states[j]);
    }
  }

  /** No two watches of a run, of whatever nodes and however far apart, get the same id. */
  lemma WatchIdsNeverReused(states: seq<System>, steps: seq<Step>, i: nat, j: nat)
    requires IsRun(states, steps) && i < j < |steps|
    requires steps[i].Create? && steps[i].cancel.Some? && steps[j].Create? && steps[j].cancel.Some?
    ensures steps[i].cancel.value.id < steps[j].cancel.value.id
  {
    assert Next(states[i], steps[i], states[i + 1]) && Next(states[j], steps[j], states[j + 1]);
    WatchCountGrows(states, steps, i + 1, j);
  }

  /** Once an issued watch is gone (fired, cancelled or cleared) it never opens again, even if its node's
      status is created anew: a cancel function called late finds nothing of anyone else's. */
  lemma {:induction false} CancelledForever(states: seq<System>, steps: seq<Step>, i: nat, j: nat, k: WatchKey)
    requires IsRun(states, steps) && i <= j < |states|
    requires k.id <= states[i].cache.watchCount && !Open(states[i].cache, k)
    ensures !Open(states[j].cache, k)
    ensures forall other :: Open(Cancel(states[j].cache, k), other) <==> Open(states[j].cache, other)
    decreases j
  {
    if i < j {
      CancelledForever(states, steps, i, j - 1, k);
      WatchCountGrows(states, steps, i, j - 1);
      RunInv(states, steps, j - 1);
      StaysClosed(states[j - 1], steps[j - 1], states[j], k);
    }
    CancelSafe(states[j].cache, k);
  }

  lemma StaysClosed(s: System, step: Step, s': System, k: WatchKey)
    requires CacheInv(s.cache) && Next(s, step, s') && !Open(s.cache, k) && k.id <= s.cache.watchCount
    ensures !Open(s'.cache, k)
  {
    if Open(s'.cache, k) {
      OpensOnlyByCreate(s, step, s', k);
      assert false;
    }
  }

  /** Only CreateWatch opens a watch, and under a new id. */
  lemma OpensOnlyByCreate(s: System, step: Step, s': System, k: WatchKey)
    requires CacheInv(s.cache) && Next(s, step, s') && !Open(s.cache, k) && Open(s'.cache, k)
    ensures step.Create? && step.cancel == Some(k) && k.id > s.cache.watchCount
  {
    match step
    case Create(sid, chan, cancel) =>
      CacheInvCreateWatch(s.cache, s.streams[sid].phase.request, s'.cache, chan, cancel);
    case Receive(sid, input) =>
      if s'.cache != s.cache {
        CancelSafe(s.cache, s.streams[sid].slots[Typed(s.streams[sid], input.request).typeUrl.kind].cancel.value);
      }
    case Release(sid) =>
      if s'.cache != s.cache {
        CancelSafe(s.cache, s.streams[sid].slots[KindAt(s.streams[sid].phase.next)].cancel.value);
      }
    case _ =>
  }

  /******* Response exactness *******/

  /** The stored group that a request is about. */
  function GroupFor(c: CacheState, r: Request): ResourceGroup
    requires NodeId(r) in c.snapshots
  {
    Group(c.snapshots[NodeId(r)], r.typeUrl)
  }

  /** r is exactly what its request asks for, out of the snapshot that is stored right now, and is not held back. */
  ghost predicate Current(c: CacheState, r: Response) {
    && NodeId(r.request) in c.snapshots
    && Answers(r, r.request, GroupFor(c, r.request))
    && !Held(c.ads, r.request, GroupFor(c, r.request).items)
  }

  /** Step i put r into channel ch. */
  ghost predicate QueuedAt(states: seq<System>, i: nat, ch: nat, r: Response)
    requires i + 1 < |states|
  {
    var before, after := states[i].cache, states[i + 1].cache;
    && (ch < |before.chans| ==> before.chans[ch].buf == [])
    && ch < |after.chans| && after.chans[ch].buf == [r]
    && Current(after, r)
  }

  lemma QueuedIsCurrent(s: System, step: Step, s': System, ch: nat)
    requires CacheInv(s.cache) && Next(s, step, s') && ch < |s'.cache.chans| && s'.cache.chans[ch].buf != []
    requires ch < |s.cache.chans| ==> s'.cache.chans[ch].buf != s.cache.chans[ch].buf
    ensures ch < |s.cache.chans| ==> s.cache.chans[ch].buf == []
    ensures |s'.cache.chans[ch].buf| == 1 && Current(s'.cache, s'.cache.chans[ch].buf[0])
  {
    match step
    case SetSnapshot(node, snap) =>
      var k :| Fires(s.cache, k, node, snap) && WatchAt(s.cache, k).response == ch;
      assert WatchOk(s.cache, k);
      SetSnapshotAnswersExactly(s.cache, node, snap, s'.cache, k);
    case Create(sid, chan, cancel) =>
      assert forall x :: 0 <= x < chan ==> s'.cache.chans[x] == s'.cache.chans[..chan][x];
    case _ =>
  }

  lemma {:induction false} QueuedSometime(states: seq<System>, steps: seq<Step>, i: nat, ch: nat)
    requires IsRun(states, steps) && i < |states| && ch < |states[i].cache.chans| && states[i].cache.chans[ch].buf != []
    ensures exists j :: 0 <= j < i && QueuedAt(states, j, ch, states[i].cache.chans[ch].buf[0])
  {
    RunInv(states, steps, i - 1);
    var s, s' := states[i - 1], states[i];
    assert Next(s, steps[i - 1], s');
    if ch < |s.cache.chans| && s'.cache.chans[ch].buf == s.cache.chans[ch].buf {
      QueuedSometime(states, steps, i - 1, ch);
    } else {
      QueuedIsCurrent(s, steps[i - 1], s', ch);
      assert QueuedAt(states, i - 1, ch, s'.cache.chans[ch].buf[0]);
    }
  }

  /** Every response ever delivered answers the latest request of its slot, differs from it in version,
      and was, when it was queued, exactly the requested part of the snapshot then stored. */
  lemma ResponseExactness(states: seq<System>, steps: seq<Step>, i: nat)
    requires RunStep(states, steps, i) && steps[i].Deliver?
    ensures var slot := states[i].streams[steps[i].sid].slots[steps[i].kind];
            var r := Waiting(states[i].cache, slot);
            && slot.request == Some(r.request)
            && r.version != r.request.version
            && exists j :: 0 <= j < i && QueuedAt(states, j, slot.chan.value, r)
  {
    RunInv(states, steps, i);
    var o := Owner(steps[i].sid, steps[i].kind);
    var slot := states[i].streams[o.sid].slots[o.kind];
    assert ChannelOk(states[i].cache.chans[slot.chan.value]);
    assert AnswerAt(states[i], o);
    QueuedSometime(states, steps, i, slot.chan.value);
  }

  lemma {:induction false} ModeStays(states: seq<System>, steps: seq<Step>, i: nat)
    requires IsRun(states, steps) && i < |states|
    ensures states[i].cache.ads == states[0].cache.ads
  {
    if i > 0 {
      ModeStays(states, steps, i - 1);
      assert Next(states[i - 1], steps[i - 1], states[i]);
    }
  }

  /** Step j put all resources of r's type, out of the snapshot then stored, into channel ch. */
  ghost predicate QueuedWhole(states: seq<System>, j: nat, ch: nat, r: Response)
    requires j + 1 < |states|
  {
    QueuedAt(states, j, ch, r) && Lists(GroupFor(states[j + 1].cache, r.request).items, r.resources)
  }

  /** In ADS mode every response ever delivered lists all resources of its type in the snapshot that was stored when it
      was queued, whatever its request names. */
  lemma AdsDeliversWhole(states: seq<System>, steps: seq<Step>, i: nat)
    requires RunStep(states, steps, i) && steps[i].Deliver? && states[0].cache.ads
    ensures var slot := states[i].streams[steps[i].sid].slots[steps[i].kind];
            exists j :: 0 <= j < i && QueuedWhole(states, j, slot.chan.value, Waiting(states[i].cache, slot))
  {
    ResponseExactness(states, steps, i);
    var slot := states[i].streams[steps[i].sid].slots[steps[i].kind];
    var r := Waiting(states[i].cache, slot);
    var j :| 0 <= j < i && QueuedAt(states, j, slot.chan.value, r);
    ModeStays(states, steps, j + 1);
    var g := GroupFor(states[j + 1].cache, r.request);
    assert Requested(r.request, g.items) == g.items;
    assert QueuedWhole(states, j, slot.chan.value, r);
  }

  /******* Nonces *******/

  /** The latest response of a type on a stream. */
  function LastSent(log: seq<Sent>, kind: Kind): Option<Sent> {
    if log == [] then None
    else if log[|log| - 1].kind == kind then Some(log[|log| - 1])
    else LastSent(log[..|log| - 1], kind)
  }

  function LatestNonce(log: seq<Sent>, kind: Kind): string {
    var last := LastSent(log, kind);
    if last.Some? then last.value.nonce else ""
  }

  ghost predicate NonceInv(st: Stream) {
    && |st.log| == st.streamNonce
    && (forall i :: 0 <= i < |st.log| ==> st.log[i].nonce == Decimal(i + 1))
    && (st.phase.Selecting? || st.phase.Creating? ==>
          forall k: Kind :: st.slots[k].nonce == LatestNonce(st.log, k))
  }

  lemma LastSentMore(log: seq<Sent>, sent: Sent, kind: Kind)
    ensures LastSent(log + [sent], kind) == if sent.kind == kind then Some(sent) else LastSent(log, kind)
  {
    assert (log + [sent])[..|log|] == log;
  }

  lemma NoncesNumbered(log: seq<Sent>, sent: Sent)
    requires forall i :: 0 <= i < |log| ==> log[i].nonce == Decimal(i + 1)
    requires sent.nonce == Decimal(|log| + 1)
    ensures forall i :: 0 <= i < |log + [sent]| ==> (log + [sent])[i].nonce == Decimal(i + 1)
  {
  }

  lemma NonceInvDeliver(st: Stream, kind: Kind, resp: Response, outcome: Outcome)
    requires NonceInv(st) && st.phase == Selecting
    ensures NonceInv(StreamAfterDeliver(st, kind, resp, outcome))
  {
    var st' := StreamAfterDeliver(st, kind, resp, outcome);
    if outcome != MarshalFailed {
      var sent := Sent(kind, Decimal(st.streamNonce + 1), resp);
      NoncesNumbered(st.log, sent);
      forall k: Kind { LastSentMore(st.log, sent, k); }
    }
  }

  /** The nonces of a stream change only when it delivers. */
  lemma NonceInvKept(st: Stream, st': Stream)
    requires NonceInv(st) && st'.log == st.log && st'.streamNonce == st.streamNonce
    requires forall k: Kind :: st'.slots[k].nonce == st.slots[k].nonce
    requires st'.phase.Selecting? || st'.phase.Creating? ==> st.phase.Selecting? || st.phase.Creating?
    ensures NonceInv(st')
  {
  }

  lemma NonceInvStep(s: System, step: Step, s': System, sid: nat)
    requires Next(s, step, s') && sid in s'.streams && (sid in s.streams ==> NonceInv(s.streams[sid]))
    ensures NonceInv(s'.streams[sid])
  {
    match step
    case Deliver(id, kind, outcome) =>
      if id == sid { NonceInvDeliver(s.streams[sid], kind, Waiting(s.cache, s.streams[sid].slots[kind]), outcome); }
    case OpenStream(_, _) =>
    case _ => NonceInvKept(s.streams[sid], s'.streams[sid]);
  }

  lemma {:induction false} RunNonces(states: seq<System>, steps: seq<Step>, i: nat)
    requires IsRun(states, steps) && i < |states|
    ensures forall sid :: sid in states[i].streams ==> NonceInv(states[i].streams[sid])
  {
    if i > 0 {
      RunNonces(states, steps, i - 1);
      forall sid | sid in states[i].streams ensures NonceInv(states[i].streams[sid]) {
        NonceInvStep(states[i - 1], steps[i - 1], states[i], sid);
      }
    }
  }

  /** Position v holds the latest response of the type. */
  predicate LatestAtIndex(log: seq<Sent>, kind: Kind, v: nat) {
    v < |log| && log[v].kind == kind && forall i :: v < i < |log| ==> log[i].kind != kind
  }

  lemma {:induction false} LastSentIndex(log: seq<Sent>, kind: Kind) returns (v: nat)
    ensures if LastSent(log, kind).Some? then LatestAtIndex(log, kind, v) && LastSent(log, kind).value == log[v]
            else forall i :: 0 <= i < |log| ==> log[i].kind != kind
  {
    v := 0;
    if log != [] {
      var last := |log| - 1;
      if log[last].kind == kind {
        v := last;
      } else {
        v := LastSentIndex(log[..last], kind);
        assert forall i :: 0 <= i < last ==> log[..last][i] == log[i];
      }
    }
  }

  lemma LatestNonceIndex(log: seq<Sent>, kind: Kind, j: nat)
    requires forall i :: 0 <= i < |log| ==> log[i].nonce == Decimal(i + 1)
    requires j < |log|
    ensures log[j].nonce == LatestNonce(log, kind) <==> LatestAtIndex(log, kind, j)
  {
    ValueOfDecimal(j + 1);
    var v := LastSentIndex(log, kind);
    if LastSent(log, kind).Some? && log[j].nonce == log[v].nonce { DecimalInjective(j + 1, v + 1); }
  }

  /** On every stream the k-th response carries the decimal of k. Once a type has had a response, a request
      of that type is accepted exactly when its nonce is that of the latest response of its type; it then
      equals the nonce of no other response, of any type. */
  lemma NonceDiscipline(states: seq<System>, steps: seq<Step>, i: nat, r: Request, j: nat)
    requires RunStep(states, steps, i) && steps[i].Receive? && steps[i].input == Got(r)
    requires j < |states[i].streams[steps[i].sid].log|
    ensures var st := states[i].streams[steps[i].sid];
            var t := Typed(st, r).typeUrl;
            && st.log[j].nonce == Decimal(j + 1)
            && (t.Of? && LatestNonce(st.log, t.kind) != "" ==>
                  (states[i + 1].streams[steps[i].sid].phase.Creating? <==> r.nonce == LatestNonce(st.log, t.kind)))
            && (t.Of? && LatestNonce(st.log, t.kind) != "" && states[i + 1].streams[steps[i].sid].phase.Creating? ==>
                  (r.nonce == st.log[j].nonce <==> LatestAtIndex(st.log, t.kind, j)))
  {
    RunNonces(states, steps, i);
    var st := states[i].streams[steps[i].sid];
    assert NonceInv(st);
    var t := Typed(st, r).typeUrl;
    if t.Of? {
      assert st.slots[t.kind].nonce == LatestNonce(st.log, t.kind);
      LatestNonceIndex(st.log, t.kind, j);
    }
  }
}
