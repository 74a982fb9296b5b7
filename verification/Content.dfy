/** What a converged client holds: not only the current version but the current resources, provided that
    snapshots of one node with equal versions are equal, as the cache asks of its callers, and that the client
    goes on asking for the same names. */
module Content {
  import opened Xds
  import opened SnapshotCache
  import opened Protocol
  import opened Safety
  import opened Delivery
  import opened Convergence

  function Latest(me: Client, w: World, k: Kind): Option<Sent>
    requires me.sid in w.sys.streams
  {
    LastSent(w.sys.streams[me.sid].log, k)
  }

  /** What is known of the client's requests of a type: the version that its first one claims, and the names that all
      of them ask for, if these never change. */
  datatype Habit = Habit(first: string, names: Option<seq<string>>)

  predicate Fits(habit: Habit, r: Request) {
    habit.names.None? || r.names == habit.names.value
  }

  predicate Follows(habit: Habit, move: Move, k: Kind) {
    match move
    case Start(j, r) => j == k ==> r.version == habit.first && Fits(habit, r)
    case Ack(j, names) => j == k ==> habit.names.None? || names == habit.names.value
    case Server(_) => true
  }

  predicate Habitual(habit: Habit, moves: seq<Move>, i: nat, k: Kind)
    requires i <= |moves|
  {
    forall m :: 0 <= m < i ==> Follows(habit, moves[m], k)
  }

  /** The version the client has: that of the latest response, or the one it came with. */
  function Claimed(habit: Habit, latest: Option<Sent>): string {
    if latest.Some? then latest.value.response.version else habit.first
  }

  predicate Carried(habit: Habit, version: string, r: Request) { r.version == version && Fits(habit, r) }

  /** Whatever the lane holds claims the version of the latest response of its type and keeps to the habit. */
  ghost predicate Carries(me: Client, w: World, k: Kind, habit: Habit)
    requires me.sid in w.sys.streams
  {
    var lane, phase, slot := w.lanes[k], w.sys.streams[me.sid].phase, SlotOf(w.sys, Owner(me.sid, k));
    var latest := Latest(me, w, k);
    var version := Claimed(habit, latest);
    && (!lane.started ==> latest.None?)
    && (latest.Some? ==> Fits(habit, latest.value.response.request))
    && (lane.down != [] ==> latest == Some(lane.down[0]))
    && (lane.up != [] ==> Carried(habit, version, lane.up[0]))
    && (IsCreating(phase, k) ==> Carried(habit, version, phase.request))
    && (Waits(w.sys, Owner(me.sid, k)) || HasResponse(w.sys.cache, slot) ==>
          slot.request.Some? && Carried(habit, version, slot.request.value))
  }

  lemma CarriesFrame(me: Client, w: World, w': World, k: Kind, habit: Habit)
    requires me.sid in w.sys.streams && me.sid in w'.sys.streams
    requires Carries(me, w, k, habit) && SameLane(me, w, w', k) && Latest(me, w', k) == Latest(me, w, k)
    ensures Carries(me, w', k, habit)
  {
  }

  lemma LatestDelivered(me: Client, w: World, move: Move, w': World, k: Kind)
    requires me.sid in w.sys.streams && Moves(me, w, move, w') && me.sid in w'.sys.streams && Delivers(me, move, k)
    ensures Latest(me, w', k).Some? && w'.lanes[k].down == w.lanes[k].down + [Latest(me, w', k).value]
    ensures HasResponse(w.sys.cache, SlotOf(w.sys, Owner(me.sid, k)))
    ensures Latest(me, w', k).value.response == Waiting(w.sys.cache, SlotOf(w.sys, Owner(me.sid, k)))
  {
    var log := w'.sys.streams[me.sid].log;
    assert log[..|log| - 1] == w.sys.streams[me.sid].log;
  }

  /** A delivery changes the latest response of its own type only. */
  lemma LatestAfter(me: Client, w: World, move: Move, w': World, k: Kind)
    requires me.sid in w.sys.streams && Moves(me, w, move, w') && me.sid in w'.sys.streams && !Delivers(me, move, k)
    ensures Latest(me, w', k) == Latest(me, w, k)
  {
    if move.Server? && move.step.Deliver? && move.step.sid == me.sid {
      var log := w'.sys.streams[me.sid].log;
      assert log[..|log| - 1] == w.sys.streams[me.sid].log;
    }
  }

  /** The moves on lane k itself hand the version on. */
  lemma CarriesOwn(me: Client, w: World, move: Move, w': World, k: Kind, habit: Habit)
    requires me.sid in w.sys.streams && me.sid in w'.sys.streams && LaneInv(me, w, k) && LaneInv(me, w', k)
    requires Moves(me, w, move, w') && Own(me, move) && k == KindOf(me, w, move) && !Delivers(me, move, k)
    requires Carries(me, w, k, habit) && Follows(habit, move, k) && Latest(me, w', k) == Latest(me, w, k)
    requires move.Server? && move.step.Receive? ==> w'.sys.streams[me.sid].phase == Creating(k, w.lanes[k].up[0])
    ensures Carries(me, w', k, habit)
  {
  }

  lemma CarriesDelivery(me: Client, w: World, w': World, k: Kind, habit: Habit)
    requires me.sid in w.sys.streams && me.sid in w'.sys.streams && LaneInv(me, w, k) && LaneInv(me, w', k)
    requires Latest(me, w', k).Some? && w'.lanes[k].down == w.lanes[k].down + [Latest(me, w', k).value]
    requires HasResponse(w.sys.cache, SlotOf(w.sys, Owner(me.sid, k))) && AnswerAt(w.sys, Owner(me.sid, k))
    requires Latest(me, w', k).value.response == Waiting(w.sys.cache, SlotOf(w.sys, Owner(me.sid, k)))
    requires w'.lanes[k].started == w.lanes[k].started && Carries(me, w, k, habit)
    ensures Carries(me, w', k, habit)
  {
  }

  /** Moves elsewhere leave lane k what it had, but for an open watch that is answered. */
  lemma CarriesElsewhere(me: Client, w: World, move: Move, w': World, k: Kind, habit: Habit)
    requires WorldInv(me, w) && Moves(me, w, move, w') && Carries(me, w, k, habit)
    requires !(Own(me, move) && k == KindOf(me, w, move))
    ensures me.sid in w'.sys.streams && Carries(me, w', k, habit)
  {
    if Own(me, move) {
      OwnMove(me, w, move, w', KindOf(me, w, move));
      LatestAfter(me, w, move, w', k);
      CarriesFrame(me, w, w', k, habit);
    } else if move.step.SetSnapshot? {
      SetSnapshotAtSlot(w.sys, move.step, w'.sys, Owner(me.sid, k));
    } else {
      OthersMove(me, w, move, w');
      CarriesFrame(me, w, w', k, habit);
    }
  }

  lemma CarriesHere(me: Client, w: World, move: Move, w': World, k: Kind, habit: Habit)
    requires WorldInv(me, w) && WorldInv(me, w') && Moves(me, w, move, w') && Carries(me, w, k, habit)
    requires Own(me, move) && k == KindOf(me, w, move) && Follows(habit, move, k)
    ensures Carries(me, w', k, habit)
  {
    assert LaneInv(me, w, k) && LaneInv(me, w', k);
    if Delivers(me, move, k) {
      LatestDelivered(me, w, move, w', k);
      assert AnswerAt(w.sys, Owner(me.sid, k));
      CarriesDelivery(me, w, w', k, habit);
    } else {
      LatestAfter(me, w, move, w', k);
      if move.Server? && move.step.Receive? {
        var r := w.lanes[k].up[0];
        assert Typed(w.sys.streams[me.sid], r) == r && Accepts(w.sys.streams[me.sid], r);
      }
      CarriesOwn(me, w, move, w', k, habit);
    }
  }

  lemma CarriesMove(me: Client, w: World, move: Move, w': World, k: Kind, habit: Habit)
    requires WorldInv(me, w) && Moves(me, w, move, w') && Carries(me, w, k, habit) && Follows(habit, move, k)
    ensures WorldInv(me, w') && Carries(me, w', k, habit)
  {
    WorldInvMove(me, w, move, w');
    if Own(me, move) && k == KindOf(me, w, move) {
      CarriesHere(me, w, move, w', k, habit);
    } else {
      CarriesElsewhere(me, w, move, w', k, habit);
    }
  }

  lemma {:induction false} HistoryCarries(me: Client, ws: seq<World>, moves: seq<Move>, i: nat, k: Kind, habit: Habit)
    requires IsHistory(me, ws, moves) && i < |ws| && Habitual(habit, moves, i, k)
    ensures WorldInv(me, ws[i]) && Carries(me, ws[i], k, habit)
  {
    if i == 0 {
      ConnectedInv(me, ws[0]);
    } else {
      HistoryCarries(me, ws, moves, i - 1, k, habit);
      CarriesMove(me, ws[i - 1], moves[i - 1], ws[i], k, habit);
    }
  }

  /******* Where responses come from *******/

  /** At moment j the response was exactly what its request asks for, out of the snapshot stored for the node. */
  ghost predicate CurrentAt(me: Client, ws: seq<World>, j: nat, k: Kind, r: Response)
    requires j < |ws|
  {
    var c := ws[j].sys.cache;
    me.node in c.snapshots && Answers(r, r.request, Group(c.snapshots[me.node], Of(k)))
  }

  ghost predicate WasCurrent(me: Client, ws: seq<World>, i: nat, k: Kind, r: Response)
    requires i < |ws|
  {
    exists j :: 0 <= j <= i && CurrentAt(me, ws, j, k, r)
  }

  ghost predicate WaitingOk(me: Client, ws: seq<World>, i: nat, k: Kind)
    requires i < |ws|
  {
    me.sid in ws[i].sys.streams &&
    var slot := SlotOf(ws[i].sys, Owner(me.sid, k));
    HasResponse(ws[i].sys.cache, slot) ==> WasCurrent(me, ws, i, k, Waiting(ws[i].sys.cache, slot))
  }

  lemma {:induction false} WaitingWasCurrent(me: Client, ws: seq<World>, moves: seq<Move>, i: nat, k: Kind)
    requires IsHistory(me, ws, moves) && i < |ws|
    ensures WaitingOk(me, ws, i, k)
  {
    if i > 0 {
      WaitingWasCurrent(me, ws, moves, i - 1, k);
      WaitingAt(me, ws, moves, i, k);
    }
  }

  lemma WaitingAt(me: Client, ws: seq<World>, moves: seq<Move>, i: nat, k: Kind)
    requires IsHistory(me, ws, moves) && 0 < i < |ws| && WaitingOk(me, ws, i - 1, k)
    ensures WaitingOk(me, ws, i, k)
  {
    HistoryInv(me, ws, moves, i - 1);
    WaitingStep(me, ws, i, k, moves[i - 1]);
  }

  lemma WaitingStep(me: Client, ws: seq<World>, i: nat, k: Kind, move: Move)
    requires 0 < i < |ws| && WorldInv(me, ws[i - 1]) && Moves(me, ws[i - 1], move, ws[i]) && WaitingOk(me, ws, i - 1, k)
    ensures WaitingOk(me, ws, i, k)
  {
    var w, w' := ws[i - 1], ws[i];
    WorldInvMove(me, w, move, w');
    var slot, slot' := SlotOf(w.sys, Owner(me.sid, k)), SlotOf(w'.sys, Owner(me.sid, k));
    if HasResponse(w'.sys.cache, slot') {
      var r := Waiting(w'.sys.cache, slot');
      if HasResponse(w.sys.cache, slot) && Waiting(w.sys.cache, slot) == r {
        StillWasCurrent(me, ws, i - 1, i, k, r);
      } else {
        NewlyWaiting(me, w, move, w', k);
        assert CurrentAt(me, ws, i, k, r);
      }
    }
  }

  lemma StillWasCurrent(me: Client, ws: seq<World>, i: nat, i': nat, k: Kind, r: Response)
    requires i <= i' < |ws| && WasCurrent(me, ws, i, k, r)
    ensures WasCurrent(me, ws, i', k, r)
  {
  }

  /** A move leaves a slot its channel or gives it a new one. */
  lemma ChannelAfter(me: Client, w: World, move: Move, w': World, k: Kind)
    requires me.sid in w.sys.streams && me.sid in w'.sys.streams && Moves(me, w, move, w')
    requires move.Server? && move.step.OpenStream? ==> move.step.sid != me.sid
    ensures var slot, slot' := SlotOf(w.sys, Owner(me.sid, k)), SlotOf(w'.sys, Owner(me.sid, k));
            slot'.chan == slot.chan || slot'.chan == Some(|w.sys.cache.chans|)
    ensures !move.Server? ==> w'.sys == w.sys
  {
  }

  /** A response that was not waiting before has just been made from the stored snapshot. */
  lemma NewlyWaiting(me: Client, w: World, move: Move, w': World, k: Kind)
    requires WorldInv(me, w) && WorldInv(me, w') && Moves(me, w, move, w')
    requires HasResponse(w'.sys.cache, SlotOf(w'.sys, Owner(me.sid, k)))
    requires var slot, slot' := SlotOf(w.sys, Owner(me.sid, k)), SlotOf(w'.sys, Owner(me.sid, k));
             !(HasResponse(w.sys.cache, slot) && Waiting(w.sys.cache, slot) == Waiting(w'.sys.cache, slot'))
    ensures me.node in w'.sys.cache.snapshots
    ensures var r := Waiting(w'.sys.cache, SlotOf(w'.sys, Owner(me.sid, k)));
            Answers(r, r.request, Group(w'.sys.cache.snapshots[me.node], Of(k)))
  {
    var o := Owner(me.sid, k);
    assert LaneInv(me, w', k) && AnswerAt(w'.sys, o) && SlotOk(w.sys, o);
    ChannelAfter(me, w, move, w', k);
    QueuedIsCurrent(w.sys, move.step, w'.sys, SlotOf(w'.sys, o).chan.value);
  }

  ghost predicate LatestOk(me: Client, ws: seq<World>, i: nat, k: Kind)
    requires i < |ws|
  {
    me.sid in ws[i].sys.streams &&
    (Latest(me, ws[i], k).Some? ==> WasCurrent(me, ws, i, k, Latest(me, ws[i], k).value.response))
  }

  lemma {:induction false} LatestWasCurrent(me: Client, ws: seq<World>, moves: seq<Move>, i: nat, k: Kind)
    requires IsHistory(me, ws, moves) && i < |ws|
    ensures LatestOk(me, ws, i, k)
  {
    if i > 0 {
      LatestWasCurrent(me, ws, moves, i - 1, k);
      LatestAt(me, ws, moves, i, k);
    }
  }

  lemma LatestAt(me: Client, ws: seq<World>, moves: seq<Move>, i: nat, k: Kind)
    requires IsHistory(me, ws, moves) && 0 < i < |ws| && LatestOk(me, ws, i - 1, k)
    ensures LatestOk(me, ws, i, k)
  {
    HistoryInv(me, ws, moves, i - 1);
    WaitingWasCurrent(me, ws, moves, i - 1, k);
    LatestStep(me, ws, i, k, moves[i - 1]);
  }

  lemma LatestStep(me: Client, ws: seq<World>, i: nat, k: Kind, move: Move)
    requires 0 < i < |ws| && WorldInv(me, ws[i - 1]) && Moves(me, ws[i - 1], move, ws[i])
    requires LatestOk(me, ws, i - 1, k) && WaitingOk(me, ws, i - 1, k)
    ensures LatestOk(me, ws, i, k)
  {
    WorldInvMove(me, ws[i - 1], move, ws[i]);
    if Delivers(me, move, k) {
      LatestDelivered(me, ws[i - 1], move, ws[i], k);
    } else {
      LatestAfter(me, ws[i - 1], move, ws[i], k);
    }
    if Latest(me, ws[i], k).Some? {
      StillWasCurrent(me, ws, i - 1, i, k, Latest(me, ws[i], k).value.response);
    }
  }

  /** Snapshots stored for the node with equal versions of a type agree on that type. */
  ghost predicate DistinctVersions(me: Client, ws: seq<World>, i: nat, k: Kind)
    requires i < |ws|
  {
    forall a, b | 0 <= a <= i && 0 <= b <= i && Ranked(me, ws[a]) && Ranked(me, ws[b]) ::
      StoredVersion(me, ws[a], k) == StoredVersion(me, ws[b], k) ==>
        Group(ws[a].sys.cache.snapshots[me.node], Of(k)) == Group(ws[b].sys.cache.snapshots[me.node], Of(k))
  }

  /** The client has started type k, and that type is at rest. */
  predicate Resting(me: Client, w: World, k: Kind) {
    Ranked(me, w) && w.lanes[k].started && LaneRank(me, w, k) == 0
  }

  /** The part of the stored snapshot that is of type k. */
  function StoredGroup(me: Client, w: World, k: Kind): ResourceGroup
    requires me.node in w.sys.cache.snapshots
  {
    Group(w.sys.cache.snapshots[me.node], Of(k))
  }

  /** A client at rest has been told: unless its first request already claimed the stored version, it has had a
      response, and the latest one is exactly what its request asked for, out of the snapshot that was stored at some
      moment j and has the same version as the one stored now. No assumption on versions is made. */
  lemma RestHasStoredVersion(me: Client, ws: seq<World>, moves: seq<Move>, i: nat, k: Kind, habit: Habit)
      returns (j: nat)
    requires IsHistory(me, ws, moves) && i < |ws| && Resting(me, ws[i], k)
    requires Habitual(habit, moves, i, k) && habit.first != StoredVersion(me, ws[i], k)
    ensures j <= i && Ranked(me, ws[j]) && StoredVersion(me, ws[j], k) == StoredVersion(me, ws[i], k)
    ensures Waits(ws[i].sys, Owner(me.sid, k)) && Latest(me, ws[i], k).Some?
    ensures var r := Latest(me, ws[i], k).value.response;
            && Answers(r, r.request, StoredGroup(me, ws[j], k))
            && Fits(habit, r.request) && Fits(habit, WatchOf(ws[i].sys, Owner(me.sid, k)).request)
  {
    RestIsCurrent(me, ws, moves, i, k);
    HistoryCarries(me, ws, moves, i, k, habit);
    LatestWasCurrent(me, ws, moves, i, k);
    OwnWatch(ws[i].sys, Owner(me.sid, k));
    var r := Latest(me, ws[i], k).value.response;
    assert r.version == StoredVersion(me, ws[i], k);
    j :| 0 <= j <= i && CurrentAt(me, ws, j, k, r);
    HistoryInv(me, ws, moves, j);
  }

  /** With distinct versions for distinct snapshots the latest response is exactly what its request asked for, out of
      the snapshot that is stored now. */
  lemma RestHasCurrentContent(me: Client, ws: seq<World>, moves: seq<Move>, i: nat, k: Kind, habit: Habit)
    requires IsHistory(me, ws, moves) && i < |ws| && Resting(me, ws[i], k)
    requires DistinctVersions(me, ws, i, k)
    requires Habitual(habit, moves, i, k) && habit.first != StoredVersion(me, ws[i], k)
    ensures Waits(ws[i].sys, Owner(me.sid, k)) && Latest(me, ws[i], k).Some?
    ensures var r := Latest(me, ws[i], k).value.response;
            && Answers(r, r.request, StoredGroup(me, ws[i], k))
            && Fits(habit, r.request) && Fits(habit, WatchOf(ws[i].sys, Owner(me.sid, k)).request)
  {
    var j := RestHasStoredVersion(me, ws, moves, i, k, habit);
    assert Ranked(me, ws[i]) && Ranked(me, ws[j]);
  }

  /** Two requests get the same resources out of a group, so that an answer to one answers the other. */
  predicate SameRequested(a: Request, b: Request, g: ResourceGroup) {
    Requested(a, g.items) == Requested(b, g.items)
  }

  /** The response is an answer to this request, whichever one it was made for. */
  ghost predicate Suits(r: Response, asked: Request, g: ResourceGroup) {
    Answers(r.(request := asked), asked, g)
  }

  /** What a client at rest holds is what it asks for now, by its open watch, if and only if it last asked, in effect,
      for the same resources: the server does not look at names when the version is the stored one. */
  lemma RestSuitsWatchExactly(me: Client, ws: seq<World>, moves: seq<Move>, i: nat, k: Kind, habit: Habit)
    requires IsHistory(me, ws, moves) && i < |ws| && Resting(me, ws[i], k)
    requires DistinctVersions(me, ws, i, k)
    requires Habitual(habit, moves, i, k) && habit.first != StoredVersion(me, ws[i], k)
    requires WellKeyed(StoredGroup(me, ws[i], k).items)
    ensures Waits(ws[i].sys, Owner(me.sid, k)) && Latest(me, ws[i], k).Some?
    ensures var r, asked := Latest(me, ws[i], k).value.response, WatchOf(ws[i].sys, Owner(me.sid, k)).request;
            var g := StoredGroup(me, ws[i], k);
            Suits(r, asked, g) <==> SameRequested(r.request, asked, g)
  {
    RestHasCurrentContent(me, ws, moves, i, k, habit);
    var r, asked := Latest(me, ws[i], k).value.response, WatchOf(ws[i].sys, Owner(me.sid, k)).request;
    var g := StoredGroup(me, ws[i], k);
    if Suits(r, asked, g) {
      IndexListRoundTrip(Requested(asked, g.items), r.resources);
      IndexListRoundTrip(Requested(r.request, g.items), r.resources);
    }
  }

  /** A client whose requests of a type always ask for the same names holds, at rest, what its open watch asks for. */
  lemma RestSuitsWatch(me: Client, ws: seq<World>, moves: seq<Move>, i: nat, k: Kind, first: string, names: seq<string>)
    requires IsHistory(me, ws, moves) && i < |ws| && Resting(me, ws[i], k) && DistinctVersions(me, ws, i, k)
    requires Habitual(Habit(first, Some(names)), moves, i, k) && first != StoredVersion(me, ws[i], k)
    ensures Waits(ws[i].sys, Owner(me.sid, k)) && Latest(me, ws[i], k).Some?
    ensures var asked := WatchOf(ws[i].sys, Owner(me.sid, k)).request;
            asked.names == names && Suits(Latest(me, ws[i], k).value.response, asked, StoredGroup(me, ws[i], k))
  {
    RestHasCurrentContent(me, ws, moves, i, k, Habit(first, Some(names)));
  }
}
