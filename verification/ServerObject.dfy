/** One stream as the program runs it (process in pkg/server/server.go): the local variables of the select
    loop and what each of its cases does. The handlers are tied to the functions and relations that make up
    the steps of the protocol machine. */
module ServerObject {
  import opened Xds
  import opened SnapshotCache
  import opened Nonces
  import opened Protocol
  import opened Exit
  import CacheObject

  class StreamLoop {
    const defaultType: TypeUrl
    const cache: CacheObject.Cache
    var slots: Slots
    var streamNonce: nat
    var phase: Phase
    var log: seq<Sent>

    constructor (defaultType: TypeUrl, cache: CacheObject.Cache)
      ensures this.cache == cache
      ensures State() == Stream(defaultType, NO_SLOTS, 0, Selecting, [])
    {
      this.defaultType, this.cache := defaultType, cache;
      slots, streamNonce, phase, log := NO_SLOTS, 0, Selecting, [];
    }

    ghost function State(): Stream
      reads this
    {
      Stream(defaultType, slots, streamNonce, phase, log)
    }

    /** A response has arrived on the channel of a slot: send it, remember its nonce, or end the stream. */
    method HandleResponse(kind: Kind, outcome: Outcome)
      requires phase == Selecting && HasResponse(cache.State(), slots[kind])
      modifies this, cache`chans
      ensures State() ==
                StreamAfterDeliver(old(State()), kind, old(cache.chans[slots[kind].chan.value].buf[0]), outcome)
      ensures cache.State() == Pop(old(cache.State()), old(slots[kind].chan.value))
      ensures outcome == MarshalFailed ==>
                phase == Closing(0) && streamNonce == old(streamNonce) && slots == old(slots) && log == old(log)
      ensures outcome != MarshalFailed ==> streamNonce == old(streamNonce) + 1
      ensures outcome == SendFailed ==> phase == Closing(0) && slots == old(slots)
      ensures outcome == Delivered ==>
                && phase == Selecting && slots[kind] == old(slots[kind]).(nonce := Decimal(streamNonce))
                && forall k: Kind :: k != kind ==> slots[k] == old(slots[k])
    {
      var ch := slots[kind].chan.value;
      var resp := cache.chans[ch].buf[0];
      cache.chans := cache.chans[ch := cache.chans[ch].(buf := cache.chans[ch].buf[1..])];
      if outcome == MarshalFailed {
        phase := Closing(0);
      } else {
        streamNonce := streamNonce + 1;
        var nonce := Decimal(streamNonce);
        log := log + [Sent(kind, nonce, resp)];
        if outcome == SendFailed {
          phase := Closing(0);
        } else {
          slots := slots[kind := slots[kind].(nonce := nonce)];
        }
      }
    }

    method CancelSlot(kind: Kind)
      modifies cache
      ensures cache.State() == CancelIf(old(cache.State()), slots[kind].cancel)
    {
      if slots[kind].cancel.Some? {
        cache.CancelWatch(slots[kind].cancel.value);
      }
    }

    /** Cancels the watch of a slot and creates a new one: two steps of the machine. */
    method Rewatch(kind: Kind, r: Request) returns (chan: nat, cancel: Option<WatchKey>)
      requires phase == Creating(kind, r)
      modifies this`slots, this`phase, cache
      ensures CreateWatchRel(CancelIf(old(cache.State()), old(slots[kind].cancel)), r, cache.State(), chan, cancel)
      ensures State() == StreamAfterCreate(old(State()), chan, cancel)
    {
      CancelSlot(kind);
      chan, cancel := cache.CreateWatch(r);
      slots := slots[kind := slots[kind].(chan := Some(chan), cancel := cancel, request := Some(r))];
      phase := Selecting;
    }

    /** Something has arrived on the request channel. An accepted request replaces the watch of its slot;
        an ended stream, a nil request and a missing type URL end the loop; anything else is ignored. */
    method HandleRequest(input: Input) returns (chan: nat, cancel: Option<WatchKey>)
      requires phase == Selecting
      modifies this, cache
      ensures RequestHandled(old(cache.State()), old(State()), input, cache.State(), State(), chan, cancel)
      ensures Hangs(defaultType, input) ==>
                State() == old(State()).(phase := Closing(0)) && cache.State() == old(cache.State())
      ensures !Hangs(defaultType, input) ==> phase == Selecting
      ensures input.Got? && !Hangs(defaultType, input) ==>
                var r := input.request;
                var t := if r.typeUrl == AnyType then defaultType else r.typeUrl;
                if t.Of? && (old(slots[t.kind].nonce) == "" || old(slots[t.kind].nonce) == r.nonce) then
                  && slots[t.kind] == Slot(Some(chan), cancel, old(slots[t.kind].nonce),
                                           Some(Request(r.node, t, r.version, r.names, r.nonce)))
                  && forall k: Kind :: k != t.kind ==> slots[k] == old(slots[k])
                else State() == old(State()) && cache.State() == old(cache.State())
    {
      chan, cancel := 0, None;
      if !input.Got? {
        phase := Closing(0);
        return;
      }
      var r := input.request;
      if r.typeUrl == AnyType {
        if defaultType == AnyType {
          phase := Closing(0);
          return;
        }
        r := r.(typeUrl := defaultType);
      }
      if r.typeUrl.Of? && (slots[r.typeUrl.kind].nonce == "" || slots[r.typeUrl.kind].nonce == r.nonce) {
        phase := Creating(r.typeUrl.kind, r);
        chan, cancel := Rewatch(r.typeUrl.kind, r);
      }
    }

    /** The deferred Cancel: every slot's cancel function is called, in order. */
    method CancelAll()
      requires phase == Closing(0)
      modifies this`phase, cache
      ensures State() == old(State()).(phase := Closed)
      ensures cache.State() == AllCancelled(old(cache.State()), slots, 5)
    {
      for i := 0 to 5
        invariant State() == old(State()).(phase := if i < 5 then Closing(i) else Closed)
        invariant cache.State() == AllCancelled(old(cache.State()), slots, i)
      {
        CancelSlot(KindAt(i));
        phase := if i < 4 then Closing(i + 1) else Closed;
      }
    }
  }

  /** What the loop has done when it waits again, or ends, after something arrived on the request channel. */
  ghost predicate RequestHandled(c: CacheState, st: Stream, input: Input,
                                 c': CacheState, st': Stream, chan: nat, cancel: Option<WatchKey>)
  {
    var received, released := StreamAfterReceive(st, input), CacheAfterReceive(c, st, input);
    if received.phase.Creating? then
      && CreateWatchRel(released, received.phase.request, c', chan, cancel)
      && st' == StreamAfterCreate(received, chan, cancel)
    else c' == released && st' == received
  }

  /** HandleRequest is a Receive step of the protocol machine, followed by a Create step if the request is accepted. */
  lemma RequestIsSteps(s: System, sid: nat, input: Input, c': CacheState, st': Stream, chan: nat,
                       cancel: Option<WatchKey>)
      returns (mid: System)
    requires sid in s.streams && s.streams[sid].phase == Selecting
    requires RequestHandled(s.cache, s.streams[sid], input, c', st', chan, cancel)
    ensures Next(s, Receive(sid, input), mid)
    ensures var after := System(c', s.streams[sid := st']);
            if mid.streams[sid].phase.Creating? then Next(mid, Create(sid, chan, cancel), after) else mid == after
  {
    var st := s.streams[sid];
    mid := System(CacheAfterReceive(s.cache, st, input), s.streams[sid := StreamAfterReceive(st, input)]);
    assert mid.streams[sid := st'] == s.streams[sid := st'];
  }

  /** HandleResponse is a Deliver step. */
  lemma ResponseIsStep(s: System, sid: nat, kind: Kind, outcome: Outcome, c': CacheState, st': Stream)
    requires sid in s.streams && s.streams[sid].phase == Selecting && HasResponse(s.cache, s.streams[sid].slots[kind])
    requires var ch := s.streams[sid].slots[kind].chan.value;
             && c' == Pop(s.cache, ch)
             && st' == StreamAfterDeliver(s.streams[sid], kind, s.cache.chans[ch].buf[0], outcome)
    ensures Next(s, Deliver(sid, kind, outcome), System(c', s.streams[sid := st']))
  {
  }

  /** The system when the deferred Cancel of stream sid has n slots behind it. */
  function Cancelling(s: System, sid: nat, n: nat): System
    requires sid in s.streams && n <= 5
  {
    var st := s.streams[sid];
    System(AllCancelled(s.cache, st.slots, n), s.streams[sid := st.(phase := if n < 5 then Closing(n) else Closed)])
  }

  /** CancelAll is five Release steps in a row, from the state it starts in to the state it promises. */
  lemma CancelIsSteps(s: System, sid: nat, n: nat)
    requires sid in s.streams && s.streams[sid].phase == Closing(0) && n < 5
    ensures Cancelling(s, sid, 0) == s
    ensures Next(Cancelling(s, sid, n), Release(sid), Cancelling(s, sid, n + 1))
    ensures Cancelling(s, sid, 5) ==
              System(AllCancelled(s.cache, s.streams[sid].slots, 5), s.streams[sid := s.streams[sid].(phase := Closed)])
  {
    assert s.streams[sid := s.streams[sid].(phase := Closing(0))] == s.streams;
    var before, after := Cancelling(s, sid, n), Cancelling(s, sid, n + 1);
    assert before.streams[sid := after.streams[sid]] == after.streams;
  }

  /** The cache after the cancel functions of the first n slots. */
  function AllCancelled(c: CacheState, slots: Slots, n: nat): CacheState
    requires n <= 5
  {
    if n == 0 then c else CancelIf(AllCancelled(c, slots, n - 1), slots[KindAt(n - 1)].cancel)
  }

  /** Cancelling all five slots closes exactly the watches that the stream still had open. */
  lemma {:induction false} AllCancelledExactly(c: CacheState, slots: Slots, n: nat, k: WatchKey)
    requires n <= 5
    ensures Open(AllCancelled(c, slots, n), k) <==>
              Open(c, k) && forall i :: 0 <= i < n ==> slots[KindAt(i)].cancel != Some(k)
  {
    if n > 0 {
      AllCancelledExactly(c, slots, n - 1, k);
      var cancel := slots[KindAt(n - 1)].cancel;
      if cancel.Some? { CancelSafe(AllCancelled(c, slots, n - 1), cancel.value); }
    }
  }
}
