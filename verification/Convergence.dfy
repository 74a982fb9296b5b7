/** Convergence of a client that follows the protocol ("xDS REST and gRPC protocol", section "ACK/NACK and
    versioning"): it names its node in every request and answers each response with one ACK that carries
    the response's version and nonce. Everyone else does as they please.

    Messages of one type keep their order on the wire; messages of different types may overtake each
    other, which only adds runs to those of a real connection. */
module Convergence {
  import opened Xds
  import opened SnapshotCache
  import opened Protocol
  import opened Safety
  import opened Delivery

  datatype Client = Client(sid: nat, node: string)

  /** The client's side of one resource type: requests on the wire, responses on the wire. */
  datatype Lane = Lane(started: bool, up: seq<Request>, down: seq<Sent>)

  const NO_LANE := Lane(false, [], [])

  const NO_LANES: map<Kind, Lane> := map k: Kind | true :: NO_LANE

  type Lanes = m: map<Kind, Lane> | forall k: Kind :: k in m witness NO_LANES

  datatype World = World(sys: System, lanes: Lanes)

  datatype Move = Start(kind: Kind, request: Request) | Ack(kind: Kind, names: seq<string>) | Server(step: Step)

  predicate FromClient(me: Client, k: Kind, r: Request) {
    r.node == Some(me.node) && r.typeUrl == Of(k)
  }

  function AckOf(me: Client, k: Kind, msg: Sent, names: seq<string>): Request {
    Request(Some(me.node), Of(k), msg.response.version, names, msg.nonce)
  }

  predicate OnStream(me: Client, step: Step) {
    (step.OpenStream? || step.Receive? || step.Create? || step.Deliver? || step.Release?) && step.sid == me.sid
  }

  /** What a step of the client's own stream does to the wire; the connection stays up. */
  ghost predicate OwnStep(me: Client, w: World, step: Step, w': World) {
    match step
    case Receive(_, Got(r)) =>
      && r.typeUrl.Of?
      && var k := r.typeUrl.kind;
         && w.lanes[k].up != [] && w.lanes[k].up[0] == r
         && w'.lanes == w.lanes[k := w.lanes[k].(up := w.lanes[k].up[1..])]
    case Create(_, _, _) => w'.lanes == w.lanes
    case Deliver(sid, k, Delivered) =>
      && sid in w'.sys.streams && w'.sys.streams[sid].log != []
      && var log := w'.sys.streams[sid].log;
         w'.lanes == w.lanes[k := w.lanes[k].(down := w.lanes[k].down + [log[|log| - 1]])]
    case _ => false
  }

  ghost predicate Moves(me: Client, w: World, move: Move, w': World) {
    match move
    case Start(k, r) =>
      && !w.lanes[k].started && FromClient(me, k, r)
      && w' == w.(lanes := w.lanes[k := Lane(true, [r], [])])
    case Ack(k, names) =>
      && w.lanes[k].down != []
      && var lane := w.lanes[k];
         w' == w.(lanes := w.lanes[k := Lane(true, lane.up + [AckOf(me, k, lane.down[0], names)], lane.down[1..])])
    case Server(step) =>
      && Next(w.sys, step, w'.sys)
      && step != Clear(me.node)
      && if OnStream(me, step) then OwnStep(me, w, step, w') else w'.lanes == w.lanes
  }

  /** A move of the client or of its stream, as opposed to one of anybody else. */
  predicate Own(me: Client, move: Move) {
    !move.Server? || OnStream(me, move.step)
  }

  function KindOf(me: Client, w: World, move: Move): Kind
    requires Own(me, move) && me.sid in w.sys.streams
  {
    match move
    case Start(k, _) => k
    case Ack(k, _) => k
    case Server(Receive(_, Got(r))) => if r.typeUrl.Of? then r.typeUrl.kind else Endpoints
    case Server(Deliver(_, k, _)) => k
    case Server(Create(_, _, _)) =>
      var phase := w.sys.streams[me.sid].phase;
      if phase.Creating? then phase.kind else Endpoints
    case _ => Endpoints
  }

  ghost predicate Reachable(s: System) {
    exists states, steps :: IsRun(states, steps) && states[|steps|] == s
  }

  /** The client has just connected to a server that has been running for a while, without ADS mode. */
  ghost predicate Connected(me: Client, w: World) {
    && Reachable(w.sys) && !w.sys.cache.ads
    && me.sid in w.sys.streams
    && w.sys.streams[me.sid] == Stream(w.sys.streams[me.sid].defaultType, NO_SLOTS, 0, Selecting, [])
    && w.lanes == NO_LANES
  }

  ghost predicate IsHistory(me: Client, ws: seq<World>, moves: seq<Move>) {
    && |ws| == |moves| + 1
    && Connected(me, ws[0])
    && forall i :: 0 <= i < |moves| ==> Moves(me, ws[i], moves[i], ws[i + 1])
  }

  /******* One token per lane *******/

  predicate IsCreating(p: Phase, k: Kind) { p.Creating? && p.kind == k }

  function One(b: bool): nat { if b then 1 else 0 }

  /** A started lane holds exactly one thing: a request or response on the wire, a watch about to be
      created, an open watch, or a response in its channel. */
  function Tokens(me: Client, w: World, k: Kind): nat
    requires me.sid in w.sys.streams
  {
    var o := Owner(me.sid, k);
    |w.lanes[k].up| + |w.lanes[k].down| + One(IsCreating(w.sys.streams[me.sid].phase, k))
    + One(Waits(w.sys, o)) + One(HasResponse(w.sys.cache, SlotOf(w.sys, o)))
  }

  ghost predicate LaneInv(me: Client, w: World, k: Kind)
    requires me.sid in w.sys.streams
  {
    var lane := w.lanes[k];
    var slot := SlotOf(w.sys, Owner(me.sid, k));
    var phase := w.sys.streams[me.sid].phase;
    && Tokens(me, w, k) == One(lane.started)
    && (!lane.started ==> slot.nonce == "")
    && (lane.up != [] ==> FromClient(me, k, lane.up[0]) && (slot.nonce == "" || slot.nonce == lane.up[0].nonce))
    && (lane.down != [] ==> lane.down[0].nonce == slot.nonce)
    && (IsCreating(phase, k) ==> FromClient(me, k, phase.request))
    && (slot.request.Some? ==> FromClient(me, k, slot.request.value))
  }

  ghost predicate WorldInv(me: Client, w: World) {
    && Inv(w.sys) && !w.sys.cache.ads
    && me.sid in w.sys.streams
    && (w.sys.streams[me.sid].phase.Selecting? || w.sys.streams[me.sid].phase.Creating?)
    && forall k: Kind :: LaneInv(me, w, k)
  }

  lemma ConnectedInv(me: Client, w: World)
    requires Connected(me, w)
    ensures WorldInv(me, w)
  {
    var states, steps :| IsRun(states, steps) && states[|steps|] == w.sys;
    RunInv(states, steps, |steps|);
  }

  /******* How a slot is affected by the steps of others *******/

  predicate SameSlot(s: System, s': System, o: Owner)
    requires o.sid in s.streams && o.sid in s'.streams
  {
    && SlotOf(s', o) == SlotOf(s, o)
    && Waits(s', o) == Waits(s, o)
    && HasResponse(s'.cache, SlotOf(s', o)) == HasResponse(s.cache, SlotOf(s, o))
    && (HasResponse(s.cache, SlotOf(s, o)) ==> Waiting(s'.cache, SlotOf(s', o)) == Waiting(s.cache, SlotOf(s, o)))
  }

  lemma CancelElsewhere(s: System, s': System, o: Owner, p: Owner)
    requires SlotsInv(s) && o.sid in s.streams && p.sid in s.streams && o != p
    requires o.sid in s'.streams && SlotOf(s', o) == SlotOf(s, o)
    requires s'.cache == CancelIf(s.cache, SlotOf(s, p).cancel)
    ensures SameSlot(s, s', o)
  {
    assert Apart(s, o, p);
    if SlotOf(s, p).cancel.Some? { CancelSafe(s.cache, SlotOf(s, p).cancel.value); }
  }

  lemma CreateElsewhere(s: System, step: Step, s': System, o: Owner)
    requires CacheInv(s.cache) && SlotsInv(s) && Next(s, step, s') && step.Create? && o.sid in s.streams
    requires o != Owner(step.sid, s.streams[step.sid].phase.kind)
    ensures SameSlot(s, s', o)
  {
    CacheInvCreateWatch(s.cache, s.streams[step.sid].phase.request, s'.cache, step.chan, step.cancel);
    assert SlotOk(s, o);
    var slot := SlotOf(s, o);
    if slot.chan.Some? {
      assert s'.cache.chans[slot.chan.value] == s'.cache.chans[..step.chan][slot.chan.value];
    }
  }

  lemma DeliverElsewhere(s: System, step: Step, s': System, o: Owner)
    requires SlotsInv(s) && Next(s, step, s') && step.Deliver? && o.sid in s.streams
    requires o != Owner(step.sid, step.kind)
    ensures SameSlot(s, s', o)
  {
    assert Apart(s, o, Owner(step.sid, step.kind)) && SlotOk(s, o);
  }

  /** Steps of other streams, and ClearSnapshot of other nodes. */
  lemma StepElsewhere(s: System, step: Step, s': System, o: Owner, node: string)
    requires Inv(s) && Next(s, step, s') && o.sid in s.streams && !step.SetSnapshot? && step != Clear(node)
    requires !step.Clear? ==> step.sid != o.sid
    requires SlotOf(s, o).request.Some? ==> NodeId(SlotOf(s, o).request.value) == node
    ensures o.sid in s'.streams && s'.streams[o.sid] == s.streams[o.sid] && SameSlot(s, s', o)
  {
    match step
    case OpenStream(_, _) =>
    case Receive(sid, input) =>
      if s'.cache != s.cache {
        CancelElsewhere(s, s', o, Owner(sid, Typed(s.streams[sid], input.request).typeUrl.kind));
      }
    case Create(_, _, _) => CreateElsewhere(s, step, s', o);
    case Deliver(_, _, _) => DeliverElsewhere(s, step, s', o);
    case Release(sid) => CancelElsewhere(s, s', o, Owner(sid, KindAt(s.streams[sid].phase.next)));
    case Clear(_) =>
      if Waits(s, o) {
        OwnWatch(s, o);
      }
  }

  /** SetSnapshot may turn an open watch into a waiting response, and does nothing else to a slot. */
  lemma SetSnapshotAtSlot(s: System, step: Step, s': System, o: Owner)
    requires Inv(s) && Next(s, step, s') && o.sid in s.streams && step.SetSnapshot? && !s.cache.ads
    ensures s'.streams == s.streams
    ensures SameSlot(s, s', o) || (Waits(s, o) && !Waits(s', o) && !HasResponse(s.cache, SlotOf(s, o)) &&
                                   HasResponse(s'.cache, SlotOf(s', o)) && SlotOf(s, o).cancel.value.node == step.node)
  {
    var slot := SlotOf(s, o);
    assert SlotOk(s, o);
    if Waits(s, o) {
      var k := slot.cancel.value;
      OwnWatch(s, o);
      SetSnapshotAnswersExactly(s.cache, step.node, step.snapshot, s'.cache, k);
    } else if slot.chan.Some? {
      var owner :| OwnerInv(s, owner);
      forall k | Fires(s.cache, k, step.node, step.snapshot) ensures WatchAt(s.cache, k).response != slot.chan.value {
        assert Owns(s, owner[k.id], k);
        assert owner[k.id] == o || Apart(s, owner[k.id], o);
      }
      assert Quiet(s.cache, slot.chan.value, step.node, step.snapshot);
    }
  }

  /******* The measure *******/

  function StoredVersion(me: Client, w: World, k: Kind): string
    requires me.node in w.sys.cache.snapshots
  {
    GetVersion(w.sys.cache.snapshots[me.node], Of(k))
  }

  /** How many moves the lane still has to make: from a response of an old version in the channel (8) down to
      an open watch at the stored version (0); 9 if it has not been started. */
  function LaneRank(me: Client, w: World, k: Kind): (rank: nat)
    requires me.sid in w.sys.streams && me.node in w.sys.cache.snapshots
    ensures rank <= 9
  {
    var lane, target := w.lanes[k], StoredVersion(me, w, k);
    var slot, phase := SlotOf(w.sys, Owner(me.sid, k)), w.sys.streams[me.sid].phase;
    if !lane.started then 9
    else if HasResponse(w.sys.cache, slot) then if Waiting(w.sys.cache, slot).version == target then 4 else 8
    else if lane.down != [] then if lane.down[0].response.version == target then 3 else 7
    else if lane.up != [] then if lane.up[0].version == target then 2 else 6
    else if IsCreating(phase, k) then if phase.request.version == target then 1 else 5
    else 0
  }

  /** A bound on the responses the lane can still get, by its rank. */
  function DueAt(rank: nat): nat {
    if rank <= 3 then 0 else if rank <= 7 then 1 else 2
  }

  /** Nothing of lane k has changed. */
  predicate SameLane(me: Client, w: World, w': World, k: Kind)
    requires me.sid in w.sys.streams && me.sid in w'.sys.streams
  {
    var p, p' := w.sys.streams[me.sid].phase, w'.sys.streams[me.sid].phase;
    && w'.lanes[k] == w.lanes[k]
    && SameSlot(w.sys, w'.sys, Owner(me.sid, k))
    && (IsCreating(p, k) || IsCreating(p', k) ==> p == p')
  }

  /** What a move on lane k has to establish: the invariant of the lane, and progress. */
  ghost predicate Advances(me: Client, w: World, w': World, k: Kind)
    requires me.sid in w.sys.streams && me.sid in w'.sys.streams
  {
    && LaneInv(me, w', k)
    && (me.node in w.sys.cache.snapshots ==>
          me.node in w'.sys.cache.snapshots && LaneRank(me, w', k) < LaneRank(me, w, k))
  }

  lemma AdvanceStart(me: Client, w: World, move: Move, w': World)
    requires WorldInv(me, w) && Moves(me, w, move, w') && move.Start?
    ensures Advances(me, w, w', move.kind)
    ensures forall j: Kind :: j != move.kind ==> SameLane(me, w, w', j)
  {
    assert LaneInv(me, w, move.kind);
  }

  lemma AdvanceAck(me: Client, w: World, move: Move, w': World)
    requires WorldInv(me, w) && Moves(me, w, move, w') && move.Ack?
    ensures Advances(me, w, w', move.kind)
    ensures forall j: Kind :: j != move.kind ==> SameLane(me, w, w', j)
  {
    assert LaneInv(me, w, move.kind);
  }

  lemma AdvanceReceive(me: Client, w: World, move: Move, w': World, k: Kind)
    requires WorldInv(me, w) && Moves(me, w, move, w') && move.Server? && move.step.Receive? && Own(me, move)
    requires k == KindOf(me, w, move)
    ensures me.sid in w'.sys.streams && w'.sys.streams[me.sid].phase.Creating?
    ensures Advances(me, w, w', k)
    ensures forall j: Kind :: j != k ==> SameLane(me, w, w', j)
  {
    var s, s' := w.sys, w'.sys;
    assert LaneInv(me, w, k);
    var r := w.lanes[k].up[0];
    assert Typed(s.streams[me.sid], r) == r && Accepts(s.streams[me.sid], r);
    var o := Owner(me.sid, k);
    if SlotOf(s, o).cancel.Some? { CancelSafe(s.cache, SlotOf(s, o).cancel.value); }
    forall j: Kind | j != k ensures SameLane(me, w, w', j) {
      CancelElsewhere(s, s', Owner(me.sid, j), o);
    }
  }

  lemma AdvanceCreate(me: Client, w: World, move: Move, w': World, k: Kind)
    requires WorldInv(me, w) && Moves(me, w, move, w') && move.Server? && move.step.Create? && Own(me, move)
    requires k == KindOf(me, w, move)
    ensures me.sid in w'.sys.streams && w'.sys.streams[me.sid].phase.Selecting?
    ensures Advances(me, w, w', k)
    ensures forall j: Kind :: j != k ==> SameLane(me, w, w', j)
  {
    var s, s', step := w.sys, w'.sys, move.step;
    assert LaneInv(me, w, k);
    CacheInvCreateWatch(s.cache, s.streams[me.sid].phase.request, s'.cache, step.chan, step.cancel);
    forall j: Kind | j != k ensures SameLane(me, w, w', j) {
      CreateElsewhere(s, step, s', Owner(me.sid, j));
    }
  }

  lemma AdvanceDeliver(me: Client, w: World, move: Move, w': World, k: Kind)
    requires WorldInv(me, w) && Moves(me, w, move, w') && move.Server? && move.step.Deliver? && Own(me, move)
    requires k == KindOf(me, w, move)
    ensures me.sid in w'.sys.streams && w'.sys.streams[me.sid].phase.Selecting?
    ensures Advances(me, w, w', k)
    ensures forall j: Kind :: j != k ==> SameLane(me, w, w', j)
  {
    var s, s', step := w.sys, w'.sys, move.step;
    assert LaneInv(me, w, k);
    assert ChannelOk(s.cache.chans[SlotOf(s, Owner(me.sid, k)).chan.value]);
    forall j: Kind | j != k ensures SameLane(me, w, w', j) {
      DeliverElsewhere(s, step, s', Owner(me.sid, j));
    }
  }

  /******* Every move keeps the invariant, and only the client's own moves change a rank *******/

  lemma LaneFrame(me: Client, w: World, w': World, k: Kind)
    requires me.sid in w.sys.streams && me.sid in w'.sys.streams
    requires LaneInv(me, w, k) && SameLane(me, w, w', k)
    ensures LaneInv(me, w', k)
    ensures me.node in w.sys.cache.snapshots && me.node in w'.sys.cache.snapshots &&
            w'.sys.cache.snapshots[me.node] == w.sys.cache.snapshots[me.node] ==>
              LaneRank(me, w', k) == LaneRank(me, w, k)
  {
  }

  predicate Publishes(me: Client, move: Move) {
    move.Server? && move.step.SetSnapshot? && move.step.node == me.node
  }

  /** Lane k made its move, all other lanes stayed as they were. */
  ghost predicate OneLane(me: Client, w: World, w': World, k: Kind)
    requires me.sid in w.sys.streams
  {
    && me.sid in w'.sys.streams
    && (w'.sys.streams[me.sid].phase.Selecting? || w'.sys.streams[me.sid].phase.Creating?)
    && Advances(me, w, w', k)
    && forall j: Kind :: j != k ==> SameLane(me, w, w', j)
  }

  lemma OwnMove(me: Client, w: World, move: Move, w': World, k: Kind)
    requires WorldInv(me, w) && Moves(me, w, move, w') && Own(me, move) && k == KindOf(me, w, move)
    ensures OneLane(me, w, w', k)
    ensures w'.sys.cache.snapshots == w.sys.cache.snapshots && w'.sys.cache.ads == w.sys.cache.ads
  {
    match move
    case Start(_, _) => AdvanceStart(me, w, move, w');
    case Ack(_, _) => AdvanceAck(me, w, move, w');
    case Server(Receive(_, _)) => AdvanceReceive(me, w, move, w', k);
    case Server(Create(_, _, _)) => AdvanceCreate(me, w, move, w', k);
    case Server(Deliver(_, _, _)) => AdvanceDeliver(me, w, move, w', k);
  }

  lemma OthersMove(me: Client, w: World, move: Move, w': World)
    requires WorldInv(me, w) && Moves(me, w, move, w') && !Own(me, move) && !move.step.SetSnapshot?
    ensures me.sid in w'.sys.streams && w'.sys.streams[me.sid] == w.sys.streams[me.sid]
    ensures forall k: Kind :: SameLane(me, w, w', k)
    ensures w'.sys.cache.ads == w.sys.cache.ads
    ensures me.node in w.sys.cache.snapshots ==>
              me.node in w'.sys.cache.snapshots && w'.sys.cache.snapshots[me.node] == w.sys.cache.snapshots[me.node]
  {
    forall k: Kind
      ensures me.sid in w'.sys.streams && w'.sys.streams[me.sid] == w.sys.streams[me.sid] && SameLane(me, w, w', k)
    {
      assert LaneInv(me, w, k);
      StepElsewhere(w.sys, move.step, w'.sys, Owner(me.sid, k), me.node);
    }
    assert SameLane(me, w, w', Endpoints);
  }

  lemma PublishMove(me: Client, w: World, move: Move, w': World, k: Kind)
    requires WorldInv(me, w) && Moves(me, w, move, w') && move.Server? && move.step.SetSnapshot?
    ensures w'.sys.streams == w.sys.streams && LaneInv(me, w', k)
    ensures move.step.node != me.node ==> SameLane(me, w, w', k)
  {
    assert LaneInv(me, w, k);
    var o := Owner(me.sid, k);
    SetSnapshotAtSlot(w.sys, move.step, w'.sys, o);
    if !SameSlot(w.sys, w'.sys, o) {
      OwnWatch(w.sys, o);
    }
  }

  lemma WorldInvMove(me: Client, w: World, move: Move, w': World)
    requires WorldInv(me, w) && Moves(me, w, move, w')
    ensures WorldInv(me, w')
  {
    if move.Server? { InvStep(w.sys, move.step, w'.sys); }
    if Own(me, move) {
      var k := KindOf(me, w, move);
      OwnMove(me, w, move, w', k);
      forall j: Kind ensures LaneInv(me, w', j) {
        if j != k { LaneFrame(me, w, w', j); }
      }
    } else if move.step.SetSnapshot? {
      forall j: Kind ensures LaneInv(me, w', j) { PublishMove(me, w, move, w', j); }
      PublishMove(me, w, move, w', Endpoints);
    } else {
      OthersMove(me, w, move, w');
      forall j: Kind ensures LaneInv(me, w', j) { LaneFrame(me, w, w', j); }
    }
  }

  /** Unless it publishes a snapshot for the client's node, a move lowers the rank of the lane it is made on,
      and of no other; moves of others lower none. */
  lemma RankMove(me: Client, w: World, move: Move, w': World, j: Kind)
    requires WorldInv(me, w) && Moves(me, w, move, w') && !Publishes(me, move) && me.node in w.sys.cache.snapshots
    ensures me.sid in w'.sys.streams && me.node in w'.sys.cache.snapshots
    ensures Own(me, move) && j == KindOf(me, w, move) ==> LaneRank(me, w', j) < LaneRank(me, w, j)
    ensures !(Own(me, move) && j == KindOf(me, w, move)) ==> LaneRank(me, w', j) == LaneRank(me, w, j)
  {
    assert LaneInv(me, w, j);
    if Own(me, move) {
      var k := KindOf(me, w, move);
      OwnMove(me, w, move, w', k);
      if j != k { LaneFrame(me, w, w', j); }
    } else if move.step.SetSnapshot? {
      PublishMove(me, w, move, w', j);
      LaneFrame(me, w, w', j);
    } else {
      OthersMove(me, w, move, w');
      LaneFrame(me, w, w', j);
    }
  }

  lemma DeliveryRank(me: Client, w: World, move: Move, w': World, j: Kind)
    requires me.sid in w.sys.streams && LaneInv(me, w, j) && Moves(me, w, move, w') && Delivers(me, move, j)
    requires me.node in w.sys.cache.snapshots
    ensures Own(me, move) && j == KindOf(me, w, move)
    ensures LaneRank(me, w, j) == 4 || LaneRank(me, w, j) == 8
  {
  }

  /** A delivery uses up one of the responses that the lane is due; nothing adds to them. */
  lemma DueMove(me: Client, w: World, move: Move, w': World, j: Kind)
    requires WorldInv(me, w) && Moves(me, w, move, w') && !Publishes(me, move) && me.node in w.sys.cache.snapshots
    ensures me.sid in w'.sys.streams && me.node in w'.sys.cache.snapshots
    ensures DueAt(LaneRank(me, w', j)) + One(Delivers(me, move, j)) <= DueAt(LaneRank(me, w, j))
  {
    RankMove(me, w, move, w', j);
    if Delivers(me, move, j) { DeliveryRank(me, w, move, w', j); }
  }

  predicate Delivers(me: Client, move: Move, k: Kind) {
    move.Server? && move.step.Deliver? && move.step.sid == me.sid && move.step.kind == k
  }

  /******* The theorems *******/

  function Total(me: Client, w: World): nat
    requires me.sid in w.sys.streams && me.node in w.sys.cache.snapshots
  {
    LaneRank(me, w, Endpoints) + LaneRank(me, w, Clusters) + LaneRank(me, w, Routes) +
    LaneRank(me, w, Listeners) + LaneRank(me, w, Secrets)
  }

  function OwnMoves(me: Client, moves: seq<Move>): nat {
    if moves == [] then 0 else OwnMoves(me, moves[..|moves| - 1]) + One(Own(me, moves[|moves| - 1]))
  }

  function Deliveries(me: Client, moves: seq<Move>, k: Kind): nat {
    if moves == [] then 0 else Deliveries(me, moves[..|moves| - 1], k) + One(Delivers(me, moves[|moves| - 1], k))
  }

  lemma {:induction false} HistoryInv(me: Client, ws: seq<World>, moves: seq<Move>, i: nat)
    requires IsHistory(me, ws, moves) && i < |ws|
    ensures WorldInv(me, ws[i])
  {
    if i == 0 {
      ConnectedInv(me, ws[0]);
    } else {
      HistoryInv(me, ws, moves, i - 1);
      WorldInvMove(me, ws[i - 1], moves[i - 1], ws[i]);
    }
  }

  /** A stretch of history, from a point where the node has a snapshot, in which no new one is published for it. */
  ghost predicate Settled(me: Client, ws: seq<World>, moves: seq<Move>, i: nat, j: nat) {
    && IsHistory(me, ws, moves) && i <= j <= |moves|
    && me.node in ws[i].sys.cache.snapshots
    && forall m :: i <= m < j ==> !Publishes(me, moves[m])
  }

  lemma TotalMove(me: Client, w: World, move: Move, w': World)
    requires WorldInv(me, w) && Moves(me, w, move, w') && !Publishes(me, move) && me.node in w.sys.cache.snapshots
    ensures me.sid in w'.sys.streams && me.node in w'.sys.cache.snapshots
    ensures Total(me, w') + One(Own(me, move)) <= Total(me, w)
  {
    RankMove(me, w, move, w', Endpoints);
    RankMove(me, w, move, w', Clusters);
    RankMove(me, w, move, w', Routes);
    RankMove(me, w, move, w', Listeners);
    RankMove(me, w, move, w', Secrets);
  }

  lemma {:induction false} SettledKeepsNode(me: Client, ws: seq<World>, moves: seq<Move>, i: nat, j: nat)
    requires Settled(me, ws, moves, i, j)
    ensures me.sid in ws[j].sys.streams && me.node in ws[j].sys.cache.snapshots
    decreases j
  {
    HistoryInv(me, ws, moves, j);
    if i < j {
      SettledKeepsNode(me, ws, moves, i, j - 1);
      HistoryInv(me, ws, moves, j - 1);
      RankMove(me, ws[j - 1], moves[j - 1], ws[j], Endpoints);
    }
  }

  lemma SettledStep(me: Client, ws: seq<World>, moves: seq<Move>, i: nat, j: nat, k: Kind)
    requires Settled(me, ws, moves, i, j) && i < j
    ensures DueOf(me, ws[j], k) + One(Delivers(me, moves[j - 1], k)) <= DueOf(me, ws[j - 1], k)
    ensures TotalOf(me, ws[j]) + One(Own(me, moves[j - 1])) <= TotalOf(me, ws[j - 1])
  {
    SettledKeepsNode(me, ws, moves, i, j - 1);
    HistoryInv(me, ws, moves, j - 1);
    DueMove(me, ws[j - 1], moves[j - 1], ws[j], k);
    TotalMove(me, ws[j - 1], moves[j - 1], ws[j]);
  }

  /** Counting along a stretch: what each move uses up is gone at the end. */
  lemma {:induction false} CountsAlong(me: Client, moves: seq<Move>, i: nat, j: nat, k: Kind,
                                       due: seq<int>, total: seq<int>)
    requires i <= j <= |moves| && |due| == |total| == |moves| + 1
    requires forall m {:trigger due[m]} :: i < m <= j ==> due[m] + One(Delivers(me, moves[m - 1], k)) <= due[m - 1]
    requires forall m {:trigger total[m]} :: i < m <= j ==> total[m] + One(Own(me, moves[m - 1])) <= total[m - 1]
    ensures Deliveries(me, moves[i..j], k) + due[j] <= due[i]
    ensures OwnMoves(me, moves[i..j]) + total[j] <= total[i]
    decreases j
  {
    if i < j {
      CountsAlong(me, moves, i, j - 1, k, due, total);
      assert moves[i..j][..j - 1 - i] == moves[i..j - 1];
    }
  }

  predicate Ranked(me: Client, w: World) {
    me.sid in w.sys.streams && me.node in w.sys.cache.snapshots
  }

  function DueOf(me: Client, w: World, k: Kind): int {
    if Ranked(me, w) then DueAt(LaneRank(me, w, k)) else 0
  }

  function TotalOf(me: Client, w: World): int {
    if Ranked(me, w) then Total(me, w) else 0
  }

  lemma MeasuresAlong(me: Client, ws: seq<World>, moves: seq<Move>, i: nat, j: nat, k: Kind)
      returns (due: seq<int>, total: seq<int>)
    requires Settled(me, ws, moves, i, j)
    ensures |due| == |total| == |ws|
    ensures forall m {:trigger due[m]} :: i < m <= j ==> due[m] + One(Delivers(me, moves[m - 1], k)) <= due[m - 1]
    ensures forall m {:trigger total[m]} :: i < m <= j ==> total[m] + One(Own(me, moves[m - 1])) <= total[m - 1]
    ensures due[i] == DueOf(me, ws[i], k) && due[j] == DueOf(me, ws[j], k)
    ensures total[i] == TotalOf(me, ws[i]) && total[j] == TotalOf(me, ws[j])
  {
    due := seq(|ws|, m requires 0 <= m < |ws| => DueOf(me, ws[m], k));
    total := seq(|ws|, m requires 0 <= m < |ws| => TotalOf(me, ws[m]));
    assert forall m :: 0 <= m < |ws| ==> due[m] == DueOf(me, ws[m], k) && total[m] == TotalOf(me, ws[m]);
    forall m | i < m <= j
      ensures due[m] + One(Delivers(me, moves[m - 1], k)) <= due[m - 1]
      ensures total[m] + One(Own(me, moves[m - 1])) <= total[m - 1]
    {
      SettledStep(me, ws, moves, i, m, k);
    }
  }

  /** Bounded convergence. After the last snapshot for its node the client gets at most two more responses of
      each type, whatever everyone else does meanwhile, and together with its stream it makes at most 45
      more moves, each of which lowers the measure. */
  lemma BoundedConvergence(me: Client, ws: seq<World>, moves: seq<Move>, i: nat, j: nat, k: Kind)
    requires Settled(me, ws, moves, i, j)
    ensures Ranked(me, ws[i]) && Ranked(me, ws[j])
    ensures Deliveries(me, moves[i..j], k) + DueAt(LaneRank(me, ws[j], k)) <= DueAt(LaneRank(me, ws[i], k)) <= 2
    ensures OwnMoves(me, moves[i..j]) + Total(me, ws[j]) <= Total(me, ws[i]) <= 45
  {
    SettledKeepsNode(me, ws, moves, i, i);
    SettledKeepsNode(me, ws, moves, i, j);
    var due, total := MeasuresAlong(me, ws, moves, i, j, k);
    CountsAlong(me, moves, i, j, k, due, total);
  }

  /** A started lane is at rest exactly when its slot has an open watch, and then the watch is at the stored
      version of its node: the client has the current configuration. */
  lemma RestIsCurrent(me: Client, ws: seq<World>, moves: seq<Move>, i: nat, k: Kind)
    requires IsHistory(me, ws, moves) && i < |ws| && ws[i].lanes[k].started
    requires me.node in ws[i].sys.cache.snapshots
    ensures me.sid in ws[i].sys.streams
    ensures LaneRank(me, ws[i], k) == 0 <==> Waits(ws[i].sys, Owner(me.sid, k))
    ensures LaneRank(me, ws[i], k) == 0 ==>
              var w := WatchAt(ws[i].sys.cache, SlotOf(ws[i].sys, Owner(me.sid, k)).cancel.value);
              FromClient(me, k, w.request) && w.request.version == StoredVersion(me, ws[i], k)
  {
    HistoryInv(me, ws, moves, i);
    assert LaneInv(me, ws[i], k);
    var o := Owner(me.sid, k);
    if Waits(ws[i].sys, o) {
      OwnWatch(ws[i].sys, o);
    }
  }

  /** The client or its stream can make a move other than starting a lane. */
  ghost predicate CanMove(me: Client, w: World, move: Move, w': World) {
    Moves(me, w, move, w') && Own(me, move) && !move.Start?
  }

  lemma ProgressCreate(me: Client, w: World) returns (move: Move, w': World)
    requires me.sid in w.sys.streams && w.sys.streams[me.sid].phase.Creating?
    ensures CanMove(me, w, move, w')
  {
    var s, st := w.sys, w.sys.streams[me.sid];
    var c', chan, cancel := CreateWatchTotal(s.cache, st.phase.request);
    move := Server(Create(me.sid, chan, cancel));
    w' := World(System(c', s.streams[me.sid := StreamAfterCreate(st, chan, cancel)]), w.lanes);
  }

  lemma ProgressDeliver(me: Client, w: World, k: Kind) returns (move: Move, w': World)
    requires me.sid in w.sys.streams && w.sys.streams[me.sid].phase.Selecting?
    requires HasResponse(w.sys.cache, SlotOf(w.sys, Owner(me.sid, k)))
    ensures CanMove(me, w, move, w')
  {
    var s, st, slot := w.sys, w.sys.streams[me.sid], SlotOf(w.sys, Owner(me.sid, k));
    move := Server(Deliver(me.sid, k, Delivered));
    var st' := StreamAfterDeliver(st, k, Waiting(s.cache, slot), Delivered);
    var lane := w.lanes[k].(down := w.lanes[k].down + [st'.log[|st'.log| - 1]]);
    w' := World(System(Pop(s.cache, slot.chan.value), s.streams[me.sid := st']), w.lanes[k := lane]);
  }

  lemma ProgressReceive(me: Client, w: World, k: Kind) returns (move: Move, w': World)
    requires me.sid in w.sys.streams && w.sys.streams[me.sid].phase.Selecting?
    requires w.lanes[k].up != [] && w.lanes[k].up[0].typeUrl == Of(k)
    ensures CanMove(me, w, move, w')
  {
    var s, st, r := w.sys, w.sys.streams[me.sid], w.lanes[k].up[0];
    move := Server(Receive(me.sid, Got(r)));
    w' := World(System(CacheAfterReceive(s.cache, st, Got(r)), s.streams[me.sid := StreamAfterReceive(st, Got(r))]),
                w.lanes[k := w.lanes[k].(up := w.lanes[k].up[1..])]);
  }

  /** The client is never stuck before that: while some started lane is not at rest, the client or its stream
      can make a move other than starting a lane. */
  lemma Progress(me: Client, w: World, k: Kind) returns (move: Move, w': World)
    requires WorldInv(me, w) && me.node in w.sys.cache.snapshots
    requires w.lanes[k].started && LaneRank(me, w, k) > 0
    ensures CanMove(me, w, move, w')
  {
    assert LaneInv(me, w, k);
    var lane := w.lanes[k];
    if w.sys.streams[me.sid].phase.Creating? {
      move, w' := ProgressCreate(me, w);
    } else if HasResponse(w.sys.cache, SlotOf(w.sys, Owner(me.sid, k))) {
      move, w' := ProgressDeliver(me, w, k);
    } else if lane.down != [] {
      move := Ack(k, []);
      w' := w.(lanes := w.lanes[k := Lane(true, lane.up + [AckOf(me, k, lane.down[0], [])], lane.down[1..])]);
    } else {
      move, w' := ProgressReceive(me, w, k);
    }
  }

  /** Everything the client has started is at rest. */
  ghost predicate AtRest(me: Client, w: World) {
    Ranked(me, w) && forall k: Kind :: w.lanes[k].started ==> LaneRank(me, w, k) == 0
  }

  lemma Extend(me: Client, ws: seq<World>, moves: seq<Move>, move: Move, w': World)
    requires IsHistory(me, ws, moves) && Moves(me, ws[|moves|], move, w')
    ensures IsHistory(me, ws + [w'], moves + [move])
  {
  }

  /** One more move towards rest. */
  lemma RestNearer(me: Client, w: World) returns (move: Move, w': World)
    requires WorldInv(me, w) && Ranked(me, w) && !AtRest(me, w)
    ensures CanMove(me, w, move, w')
    ensures Ranked(me, w') && TotalOf(me, w') < TotalOf(me, w)
  {
    var k: Kind :| w.lanes[k].started && LaneRank(me, w, k) > 0;
    move, w' := Progress(me, w, k);
    TotalMove(me, w, move, w');
  }

  /** ws' and moves' go on from ws and moves by moves of the client and its stream alone. */
  ghost predicate GoesOn(me: Client, ws: seq<World>, moves: seq<Move>, ws': seq<World>, moves': seq<Move>) {
    && |ws| <= |ws'| && |moves| <= |moves'| && ws'[..|ws|] == ws && moves'[..|moves|] == moves
    && forall i :: |moves| <= i < |moves'| ==> Own(me, moves'[i]) && !moves'[i].Start?
  }

  lemma GoesOnMore(me: Client, ws: seq<World>, moves: seq<Move>, w: World, move: Move,
                   ws': seq<World>, moves': seq<Move>)
    requires GoesOn(me, ws + [w], moves + [move], ws', moves') && Own(me, move) && !move.Start?
    ensures GoesOn(me, ws, moves, ws', moves')
  {
    assert ws'[..|ws|] == ws'[..|ws| + 1][..|ws|];
    assert moves'[..|moves|] == moves'[..|moves| + 1][..|moves|];
    assert moves'[|moves|] == moves'[..|moves| + 1][|moves|];
  }

  /** From every point of every history the client and its stream alone, without any help or any new snapshot, can
      bring the client to rest, and it takes them no more moves than the measure says. */
  lemma {:induction false} CanConverge(me: Client, ws: seq<World>, moves: seq<Move>)
      returns (ws': seq<World>, moves': seq<Move>)
    requires IsHistory(me, ws, moves) && Ranked(me, ws[|moves|])
    ensures IsHistory(me, ws', moves') && GoesOn(me, ws, moves, ws', moves')
    ensures AtRest(me, ws'[|moves'|]) && |moves'| <= |moves| + TotalOf(me, ws[|moves|])
    decreases TotalOf(me, ws[|moves|])
  {
    if AtRest(me, ws[|moves|]) {
      ws', moves' := ws, moves;
    } else {
      HistoryInv(me, ws, moves, |moves|);
      var move, w' := RestNearer(me, ws[|moves|]);
      Extend(me, ws, moves, move, w');
      ws', moves' := CanConverge(me, ws + [w'], moves + [move]);
      GoesOnMore(me, ws, moves, w', move, ws', moves');
    }
  }
}
