/** How a stream comes to its end, and what is left of it: stated over the inputs and outcomes themselves. */
module Exit {
  import opened Xds
  import opened SnapshotCache
  import opened Nonces
  import opened Protocol
  import opened Safety

  /** What ends a stream that waits for requests: its client hangs up, sends a nil request, or names no type where the
      stream has none. */
  predicate Hangs(defaultType: TypeUrl, input: Input) {
    match input
    case Ended => true
    case NilRequest => true
    case Got(r) => r.typeUrl == AnyType && defaultType == AnyType
  }

  /** The step ends stream sid: such an input, or a response that cannot be encoded or sent. */
  predicate Ends(s: System, step: Step, sid: nat)
    requires sid in s.streams
  {
    match step
    case Receive(id, input) => id == sid && Hangs(s.streams[sid].defaultType, input)
    case Deliver(id, _, outcome) => id == sid && outcome != Delivered
    case _ => false
  }

  predicate Closes(p: Phase) { p.Closing? || p.Closed? }

  /** Such an input ends the stream and does nothing else; every other input leaves it open. */
  lemma ReceiveEndsExactly(s: System, sid: nat, input: Input, s': System)
    requires Next(s, Receive(sid, input), s')
    ensures Hangs(s.streams[sid].defaultType, input) ==>
              s'.streams[sid] == s.streams[sid].(phase := Closing(0)) && s'.cache == s.cache
    ensures !Hangs(s.streams[sid].defaultType, input) ==>
              s'.streams[sid].phase.Selecting? || s'.streams[sid].phase.Creating?
    ensures s'.streams == s.streams[sid := s'.streams[sid]]
  {
  }

  /** A request is served as its own type, or, if it names none, as the type of the stream. It is accepted exactly if
      its slot has no nonce yet or the same one; then nothing of the stream changes but that its watch is to be made. */
  lemma ReceiveServesExactly(s: System, sid: nat, r: Request, s': System)
    requires Next(s, Receive(sid, Got(r)), s') && !Hangs(s.streams[sid].defaultType, Got(r))
    ensures var st, st' := s.streams[sid], s'.streams[sid];
            var t := if r.typeUrl == AnyType then st.defaultType else r.typeUrl;
            if t.Of? && (st.slots[t.kind].nonce == "" || st.slots[t.kind].nonce == r.nonce) then
              st' == st.(phase := Creating(t.kind, Request(r.node, t, r.version, r.names, r.nonce)))
            else st' == st && s'.cache == s.cache
  {
  }

  /** A response that cannot be encoded ends the stream and uses up no nonce; one that cannot be sent ends it as well
      and uses one up; any other leaves it open, and the slot remembers the nonce. In each case it has left its
      channel. */
  lemma DeliverEndsExactly(s: System, sid: nat, kind: Kind, outcome: Outcome, s': System)
    requires Next(s, Deliver(sid, kind, outcome), s')
    ensures var st, st' := s.streams[sid], s'.streams[sid];
            var resp := Waiting(s.cache, st.slots[kind]);
            var sent := Sent(kind, Decimal(st.streamNonce + 1), resp);
            match outcome
            case MarshalFailed => st' == Stream(st.defaultType, st.slots, st.streamNonce, Closing(0), st.log)
            case SendFailed => st' == Stream(st.defaultType, st.slots, st.streamNonce + 1, Closing(0), st.log + [sent])
            case Delivered =>
              && st'.phase == Selecting && st'.streamNonce == st.streamNonce + 1 && st'.log == st.log + [sent]
              && st'.slots[kind] == st.slots[kind].(nonce := sent.nonce)
              && forall k: Kind :: k != kind ==> st'.slots[k] == st.slots[k]
    ensures var ch := s.streams[sid].slots[kind].chan.value;
            s'.cache.chans[ch].buf == s.cache.chans[ch].buf[1..]
  {
  }

  /** A step takes an open stream to its end exactly if it is one of those. */
  lemma ClosesExactly(s: System, step: Step, s': System, sid: nat)
    requires Next(s, step, s') && sid in s.streams && !Closes(s.streams[sid].phase)
    ensures sid in s'.streams && (Closes(s'.streams[sid].phase) <==> Ends(s, step, sid))
  {
  }

  /******* Runs *******/

  predicate OfStream(step: Step, sid: nat) {
    !step.SetSnapshot? && !step.Clear? && step.sid == sid
  }

  /** How many Release steps of the stream there are from j up to i. */
  function Releases(steps: seq<Step>, j: nat, i: nat, sid: nat): nat
    requires j <= i <= |steps|
  {
    if i == j then 0 else Releases(steps, j, i - 1, sid) + if steps[i - 1] == Release(sid) then 1 else 0
  }

  lemma ClosingStep(s: System, step: Step, s': System, sid: nat)
    requires Next(s, step, s') && sid in s.streams && Closes(s.streams[sid].phase)
    requires s.streams[sid].phase.Closing? ==> s.streams[sid].phase.next < 5
    ensures sid in s'.streams
    ensures OfStream(step, sid) ==> step == Release(sid) && s.streams[sid].phase.Closing?
    ensures s'.streams[sid].phase ==
              if step != Release(sid) then s.streams[sid].phase
              else if s.streams[sid].phase.next < 4 then Closing(s.streams[sid].phase.next + 1) else Closed
  {
  }

  /** The phase of a stream that has come to its end, after so many releases. */
  function After(n: nat): Phase { if n < 5 then Closing(n) else Closed }

  /** Step j of the run ends the stream. */
  ghost predicate EndsAt(states: seq<System>, steps: seq<Step>, j: nat, sid: nat) {
    && RunStep(states, steps, j) && sid in states[j].streams
    && !Closes(states[j].streams[sid].phase) && Ends(states[j], steps[j], sid)
  }

  ghost predicate InPhase(s: System, sid: nat, p: Phase) { sid in s.streams && s.streams[sid].phase == p }

  function PhaseOf(s: System, sid: nat): Option<Phase> {
    if sid in s.streams then Some(s.streams[sid].phase) else None
  }

  /** A stream that has come to its end is released or stays as it is. */
  predicate Turns(p: Option<Phase>, released: bool, p': Option<Phase>) {
    p.Some? && Closes(p.value) && (p.value.Closing? ==> p.value.next < 5) ==>
      && (released ==> p.value.Closing?)
      && p' == if !released then p else Some(After(p.value.next + 1))
  }

  lemma {:induction false} TurnsAlong(steps: seq<Step>, j: nat, i: nat, sid: nat, phases: seq<Option<Phase>>)
    requires j <= i <= |steps| < |phases| && phases[j] == Some(Closing(0))
    requires forall l {:trigger phases[l]} :: j <= l < i ==> Turns(phases[l], steps[l] == Release(sid), phases[l + 1])
    ensures Releases(steps, j, i, sid) <= 5 && phases[i] == Some(After(Releases(steps, j, i, sid)))
    decreases i
  {
    if i > j {
      TurnsAlong(steps, j, i - 1, sid, phases);
      assert phases[i] == phases[i - 1 + 1];
    }
  }

  lemma WindsStep(states: seq<System>, steps: seq<Step>, i: nat, sid: nat)
    requires IsRun(states, steps) && i < |steps|
    ensures Turns(PhaseOf(states[i], sid), steps[i] == Release(sid), PhaseOf(states[i + 1], sid))
  {
    assert RunStep(states, steps, i);
    if sid in states[i].streams && Closes(states[i].streams[sid].phase) &&
       (states[i].streams[sid].phase.Closing? ==> states[i].streams[sid].phase.next < 5) {
      ClosingStep(states[i], steps[i], states[i + 1], sid);
    }
  }

  lemma PhasesTurn(states: seq<System>, steps: seq<Step>, sid: nat) returns (phases: seq<Option<Phase>>)
    requires IsRun(states, steps)
    ensures |phases| == |states| && forall m :: 0 <= m < |states| ==> phases[m] == PhaseOf(states[m], sid)
    ensures forall l {:trigger phases[l]} :: 0 <= l < |steps| ==>
              Turns(phases[l], steps[l] == Release(sid), phases[l + 1])
  {
    phases := seq(|states|, m requires 0 <= m < |states| => PhaseOf(states[m], sid));
    forall l | 0 <= l < |steps| ensures Turns(phases[l], steps[l] == Release(sid), phases[l + 1]) {
      WindsStep(states, steps, l, sid);
    }
  }

  lemma Winds(states: seq<System>, steps: seq<Step>, j: nat, i: nat, sid: nat) returns (n: nat)
    requires EndsAt(states, steps, j, sid) && j < i < |states|
    ensures n == Releases(steps, j + 1, i, sid) <= 5 && InPhase(states[i], sid, After(n))
  {
    EndStep(states, steps, j, sid);
    var phases := PhasesTurn(states, steps, sid);
    TurnsAlong(steps, j + 1, i, sid, phases);
    n := Releases(steps, j + 1, i, sid);
    assert phases[i] == PhaseOf(states[i], sid);
  }

  /** Once a stream has come to its end it is never open again. All its further steps release its slots, at most five of
      them, and after the fifth it is closed. */
  lemma WindsDown(states: seq<System>, steps: seq<Step>, j: nat, i: nat, sid: nat)
    requires EndsAt(states, steps, j, sid) && j < i < |states|
    ensures sid in states[i].streams && Releases(steps, j + 1, i, sid) <= 5
    ensures states[i].streams[sid].phase ==
              var n := Releases(steps, j + 1, i, sid); if n < 5 then Closing(n) else Closed
    ensures forall l :: j < l < i && OfStream(steps[l], sid) ==> steps[l] == Release(sid)
  {
    var n := Winds(states, steps, j, i, sid);
    forall l | j < l < i && OfStream(steps[l], sid) ensures steps[l] == Release(sid) {
      var m := Winds(states, steps, j, l, sid);
      OnlyReleases(states, steps, l, sid, m);
    }
  }

  lemma OnlyReleases(states: seq<System>, steps: seq<Step>, l: nat, sid: nat, n: nat)
    requires IsRun(states, steps) && l < |steps| && n <= 5 && InPhase(states[l], sid, After(n))
    ensures OfStream(steps[l], sid) ==> steps[l] == Release(sid)
  {
    assert RunStep(states, steps, l);
    ClosingStep(states[l], steps[l], states[l + 1], sid);
  }

  lemma EndStep(states: seq<System>, steps: seq<Step>, j: nat, sid: nat)
    requires EndsAt(states, steps, j, sid)
    ensures InPhase(states[j + 1], sid, Closing(0))
  {
  }

  /** After the five releases no watch that the stream ever created is open. */
  lemma EndLeavesNothing(states: seq<System>, steps: seq<Step>, j: nat, i: nat, sid: nat, l: nat, k: WatchKey)
    requires EndsAt(states, steps, j, sid) && j < i < |states| && Releases(steps, j + 1, i, sid) == 5
    requires l < i && Creates(steps, l, sid, k)
    ensures !Open(states[i].cache, k)
  {
    WindsDown(states, steps, j, i, sid);
    NoneSurvivesExit(states, steps, l, i, k);
  }

  /** Until then the next release is always possible. */
  lemma ReleaseIsPossible(s: System, sid: nat) returns (s': System)
    requires sid in s.streams && s.streams[sid].phase.Closing? && s.streams[sid].phase.next < 5
    ensures Next(s, Release(sid), s')
  {
    s' := System(CancelIf(s.cache, s.streams[sid].slots[KindAt(s.streams[sid].phase.next)].cancel),
                 s.streams[sid := StreamAfterRelease(s.streams[sid])]);
  }
}
