/** A client that changes the names it asks for is not answered: the code compares versions only. One complete history,
    from the start of the server, for any names at all. */
module Renaming {
  import opened Xds
  import opened SnapshotCache
  import opened Nonces
  import opened Protocol
  import opened Delivery
  import opened Convergence
  import opened Content

  const ALPHA := LoadAssignment("a", [])
  const BETA := LoadAssignment("b", [])
  const SNAPSHOT := Snapshot(ResourceGroup("v", map["a" := ALPHA, "b" := BETA]), NO_GROUP, NO_GROUP, NO_GROUP, NO_GROUP)

  const ME := Client(0, "n")
  const ASKED := Request(Some("n"), Of(Endpoints), "", ["a"], "")
  const REPLY := Response(ASKED, "v", [ALPHA])
  const SENT := Sent(Endpoints, Decimal(1), REPLY)
  const WATCH := WatchKey("n", 1)

  /** The acknowledgement that asks for other names. */
  function Changed(names: seq<string>): Request { AckOf(ME, Endpoints, SENT, names) }

  /** The cache with the snapshot stored, the first request answered, the answer taken, the second watch open. */
  const STORED := CacheState(false, map["n" := SNAPSHOT], map[], 0, [])
  const REPLIED := CacheState(false, map["n" := SNAPSHOT], map["n" := map[]], 0, [Channel([REPLY], 1)])
  const TAKEN := CacheState(false, map["n" := SNAPSHOT], map["n" := map[]], 0, [Channel([], 1)])

  function Watched(names: seq<string>): CacheState {
    CacheState(false, map["n" := SNAPSHOT], map["n" := map[1 := Watch(Changed(names), 1)]], 1, [Channel([], 1), FRESH])
  }

  /** The stream with this in its slot for endpoints. */
  function StreamWith(slot: Slot, nonce: nat, phase: Phase, log: seq<Sent>): Stream {
    Stream(Of(Endpoints), NO_SLOTS[Endpoints := slot], nonce, phase, log)
  }

  const FIRST := Slot(Some(0), None, "", Some(ASKED))
  const ACKED := Slot(Some(0), None, Decimal(1), Some(ASKED))

  function Second(names: seq<string>): Slot { Slot(Some(1), Some(WATCH), Decimal(1), Some(Changed(names))) }

  function WorldOf(c: CacheState, st: Stream, up: seq<Request>, down: seq<Sent>): World {
    World(System(c, map[0 := st]), NO_LANES[Endpoints := Lane(true, up, down)])
  }

  const OPENED := Stream(Of(Endpoints), NO_SLOTS, 0, Selecting, [])

  /** The eight worlds of the history. */
  const W0 := World(System(STORED, map[0 := OPENED]), NO_LANES)
  const W1 := WorldOf(STORED, OPENED, [ASKED], [])
  const W2 := WorldOf(STORED, OPENED.(phase := Creating(Endpoints, ASKED)), [], [])
  const W3 := WorldOf(REPLIED, StreamWith(FIRST, 0, Selecting, []), [], [])
  const W4 := WorldOf(TAKEN, StreamWith(ACKED, 1, Selecting, [SENT]), [], [SENT])

  function W5(names: seq<string>): World {
    WorldOf(TAKEN, StreamWith(ACKED, 1, Selecting, [SENT]), [Changed(names)], [])
  }

  function W6(names: seq<string>): World {
    WorldOf(TAKEN, StreamWith(ACKED, 1, Creating(Endpoints, Changed(names)), [SENT]), [], [])
  }

  function W7(names: seq<string>): World {
    WorldOf(Watched(names), StreamWith(Second(names), 1, Selecting, [SENT]), [], [])
  }

  /******* Each move *******/

  lemma LanesAgain(a: Lane, b: Lane)
    ensures NO_LANES[Endpoints := a][Endpoints := b] == NO_LANES[Endpoints := b]
  {
  }

  lemma SlotsAgain(a: Slot, b: Slot)
    ensures NO_SLOTS[Endpoints := a][Endpoints := b] == NO_SLOTS[Endpoints := b]
  {
  }

  lemma StreamsAgain(a: Stream, b: Stream)
    ensures map[0 := a][0 := b] == map[0 := b]
  {
  }

  lemma ServerIsReachable()
    ensures Reachable(W0.sys)
  {
    var c := CacheState(false, map[], map[], 0, []);
    var states := [System(c, map[]), System(c, map[0 := OPENED]), W0.sys];
    var steps := [OpenStream(0, Of(Endpoints)), SetSnapshot("n", SNAPSHOT)];
    assert SetSnapshotRel(c, "n", SNAPSHOT, STORED);
    assert Next(states[0], steps[0], states[1]) && Next(states[1], steps[1], states[2]);
    assert IsRun(states, steps) && states[|steps|] == W0.sys;
  }

  lemma Asks()
    ensures Moves(ME, W0, Start(Endpoints, ASKED), W1)
    ensures Moves(ME, W1, Server(Receive(0, Got(ASKED))), W2)
  {
    LanesAgain(Lane(true, [ASKED], []), Lane(true, [], []));
    StreamsAgain(OPENED, OPENED.(phase := Creating(Endpoints, ASKED)));
    assert Accepts(OPENED, ASKED) && [ASKED][1..] == [];
  }

  lemma IsAnswered()
    ensures CreateWatchRel(STORED, ASKED, REPLIED, 0, None)
  {
    assert "a" != "b" && "v" != "";
    assert Requested(ASKED, SNAPSHOT.endpoints.items) == map["a" := ALPHA];
    assert ListedBy(["a"], map["a" := ALPHA], [ALPHA]);
    assert REPLIED.chans[..0] == STORED.chans;
  }

  lemma ReplyIsQueued()
    ensures Moves(ME, W2, Server(Create(0, 0, None)), W3)
  {
    IsAnswered();
    StreamsAgain(W2.sys.streams[0], W3.sys.streams[0]);
  }

  lemma GetsReply()
    ensures Moves(ME, W3, Server(Deliver(0, Endpoints, Delivered)), W4)
  {
    StreamsAgain(W3.sys.streams[0], W4.sys.streams[0]);
    SlotsAgain(FIRST, ACKED);
    LanesAgain(Lane(true, [], []), Lane(true, [], [SENT]));
    assert [REPLY][1..] == [] && [] + [SENT] == [SENT];
    assert Pop(REPLIED, 0) == TAKEN;
    assert StreamAfterDeliver(W3.sys.streams[0], Endpoints, REPLY, Delivered) == W4.sys.streams[0];
  }

  lemma AsksForOthers(names: seq<string>)
    ensures Moves(ME, W4, Ack(Endpoints, names), W5(names))
    ensures Moves(ME, W5(names), Server(Receive(0, Got(Changed(names)))), W6(names))
  {
    LanesAgain(Lane(true, [], [SENT]), Lane(true, [Changed(names)], []));
    LanesAgain(Lane(true, [Changed(names)], []), Lane(true, [], []));
    StreamsAgain(W5(names).sys.streams[0], W6(names).sys.streams[0]);
    assert [] + [Changed(names)] == [Changed(names)] && [SENT][1..] == [] && [Changed(names)][1..] == [];
    assert Accepts(W5(names).sys.streams[0], Changed(names));
  }

  lemma IsNotAnswered(names: seq<string>)
    ensures CreateWatchRel(TAKEN, Changed(names), Watched(names), 1, Some(WATCH))
  {
    var none: map<nat, Watch> := map[];
    assert none[1 := Watch(Changed(names), 1)] == map[1 := Watch(Changed(names), 1)];
    assert Watched(names).chans[..1] == TAKEN.chans;
  }

  lemma WaitsForOthers(names: seq<string>)
    ensures Moves(ME, W6(names), Server(Create(0, 1, Some(WATCH))), W7(names))
  {
    IsNotAnswered(names);
    StreamsAgain(W6(names).sys.streams[0], W7(names).sys.streams[0]);
    SlotsAgain(ACKED, Second(names));
  }

  lemma ComesToRest(names: seq<string>)
    ensures Resting(ME, W7(names), Endpoints) && Waits(W7(names).sys, Owner(0, Endpoints))
    ensures WatchOf(W7(names).sys, Owner(0, Endpoints)).request == Changed(names)
    ensures Latest(ME, W7(names), Endpoints) == Some(SENT)
    ensures StoredGroup(ME, W7(names), Endpoints) == SNAPSHOT.endpoints
  {
  }

  /** The client asks for a, is told about a, and from then on asks for other names: for any names at all it comes to
      rest, its open watch asks for these names, and what it has been told is still just a. */
  lemma NamesIgnored(names: seq<string>) returns (ws: seq<World>, moves: seq<Move>)
    ensures IsHistory(ME, ws, moves) && |moves| == 7 && Resting(ME, ws[7], Endpoints)
    ensures Waits(ws[7].sys, Owner(0, Endpoints)) && Latest(ME, ws[7], Endpoints).Some?
    ensures WatchOf(ws[7].sys, Owner(0, Endpoints)).request.names == names
    ensures Latest(ME, ws[7], Endpoints).value.response.resources == [ALPHA]
    ensures StoredGroup(ME, ws[7], Endpoints).items == map["a" := ALPHA, "b" := BETA]
  {
    ws, moves := ToldAboutAlpha();
    AsksForOthers(names);
    WaitsForOthers(names);
    ws, moves := Then(ws, moves, Ack(Endpoints, names), W5(names));
    ws, moves := Then(ws, moves, Server(Receive(0, Got(Changed(names)))), W6(names));
    ws, moves := Then(ws, moves, Server(Create(0, 1, Some(WATCH))), W7(names));
    ComesToRest(names);
  }

  lemma ToldAboutAlpha() returns (ws: seq<World>, moves: seq<Move>)
    ensures IsHistory(ME, ws, moves) && |moves| == 4 && ws[4] == W4
  {
    ServerIsReachable();
    ws, moves := [W0], [];
    Asks();
    ReplyIsQueued();
    GetsReply();
    ws, moves := Then(ws, moves, Start(Endpoints, ASKED), W1);
    ws, moves := Then(ws, moves, Server(Receive(0, Got(ASKED))), W2);
    ws, moves := Then(ws, moves, Server(Create(0, 0, None)), W3);
    ws, moves := Then(ws, moves, Server(Deliver(0, Endpoints, Delivered)), W4);
  }

  /** One move more. */
  lemma Then(ws: seq<World>, moves: seq<Move>, move: Move, w: World) returns (ws': seq<World>, moves': seq<Move>)
    requires IsHistory(ME, ws, moves) && Moves(ME, ws[|moves|], move, w)
    ensures IsHistory(ME, ws', moves') && |moves'| == |moves| + 1 && ws'[|moves'|] == w
  {
    Extend(ME, ws, moves, move, w);
    ws', moves' := ws + [w], moves + [move];
  }
}
