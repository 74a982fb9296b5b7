/** The locking of the cache (pkg/cache/simple.go, pkg/cache/status.go): the cache mutex, one mutex per status
    info, and sends on response channels of capacity one made while both are held. Operations are split into
    the steps between two lock operations, and any number of them run interleaved.

    A mutex is a Go RWMutex: a writer first announces itself, and from then on no new reader is let in. */
module Locks {
  import opened Xds

  datatype RWMutex = RWMutex(writer: Option<nat>, readers: set<nat>, waiting: set<nat>)

  const UNLOCKED := RWMutex(None, {}, {})

  /** A status info: its mutex and the channels of the watches registered in it. */
  datatype Info = Info(lock: RWMutex, registered: set<nat>)

  /** What a thread is going to do under the cache mutex. Touch and Register are the two halves of CreateWatch. */
  datatype Job = Publish | Forget | Touch(open: bool) | Register | Remove(chan: nat)

  datatype Thread =
    | NeedCache(node: string, job: Job)
    | WaitCache(node: string, job: Job)
    | InCache(node: string, job: Job)
    | NeedInfo(node: string, job: Job, info: nat)
    | WaitInfo(node: string, job: Job, info: nat)
    | InInfo(node: string, job: Job, info: nat, todo: set<nat>)
    | Leaving
    | NeedRead
    | Reading
    | NeedInfoRead(info: nat)
    | ReadingInfo(info: nat)
    | Done

  /** full: the channels with a response in them. Channels below nextChan have been made. */
  datatype State = State(cache: RWMutex, infos: map<nat, Info>, status: map<string, nat>, full: set<nat>,
                         nextChan: nat, nextInfo: nat, threads: map<nat, Thread>)

  predicate Free(m: RWMutex) { m.writer == None && m.readers == {} }

  predicate Admits(m: RWMutex) { m.writer == None && m.waiting == {} }

  function Become(s: State, t: nat, th: Thread): State { s.(threads := s.threads[t := th]) }

  function SetInfo(s: State, i: nat, info: Info): State { s.(infos := s.infos[i := info]) }

  function WithLock(s: State, i: nat, lock: RWMutex): State
    requires i in s.infos
  {
    SetInfo(s, i, s.infos[i].(lock := lock))
  }

  /** Under the cache mutex: find (or make) the status info of the node. */
  function Lookup(s: State, t: nat, node: string, job: Job): State {
    if job == Forget then Become(s.(status := s.status - {node}), t, Leaving)
    else if node in s.status then Become(s, t, NeedInfo(node, job, s.status[node]))
    else if job.Touch? then
      Become(s.(infos := s.infos[s.nextInfo := Info(UNLOCKED, {})], status := s.status[node := s.nextInfo],
                nextInfo := s.nextInfo + 1),
             t, NeedInfo(node, job, s.nextInfo))
    else Become(s, t, Leaving)
  }

  /** The last thing done under the info mutex, its unlock, and what follows up to the next lock operation. For a
      request that CreateWatch answers at once this includes the send on the channel that it has just made. */
  function LeaveInfo(s: State, t: nat, node: string, job: Job, i: nat): State
    requires i in s.infos
  {
    var lock := s.infos[i].lock.(writer := None);
    match job
    case Touch(true) => Become(SetInfo(s, i, s.infos[i].(lock := lock)), t, NeedInfo(node, Register, i))
    case Touch(false) =>
      var answered := s.(full := s.full + {s.nextChan}, nextChan := s.nextChan + 1);
      Become(SetInfo(answered, i, s.infos[i].(lock := lock)), t, Leaving)
    case Register =>
      Become(SetInfo(s, i, Info(lock, s.infos[i].registered + {s.nextChan})).(nextChan := s.nextChan + 1), t, Leaving)
    case Remove(c) => Become(SetInfo(s, i, Info(lock, s.infos[i].registered - {c})), t, Leaving)
    case _ => Become(SetInfo(s, i, s.infos[i].(lock := lock)), t, Leaving)
  }

  /** A send blocks if its channel is full. */
  predicate CanSend(s: State, c: nat) { c !in s.full }

  /** SetSnapshot answers one of the watches it has to answer. */
  function Send(s: State, t: nat, th: Thread, c: nat): State
    requires th.InInfo? && th.info in s.infos
  {
    var info := s.infos[th.info];
    Become(SetInfo(s, th.info, info.(registered := info.registered - {c})).(full := s.full + {c}), t,
           th.(todo := th.todo - {c}))
  }

  /** One step of thread t. The set of watches that a SetSnapshot answers, and their order, are arbitrary. */
  ghost predicate ThreadStep(s: State, t: nat, s': State) {
    && t in s.threads
    && match s.threads[t]
       case NeedCache(n, job) =>
         s' == Become(s.(cache := s.cache.(waiting := s.cache.waiting + {t})), t, WaitCache(n, job))
       case WaitCache(n, job) =>
         && Free(s.cache)
         && s' == Become(s.(cache := RWMutex(Some(t), {}, s.cache.waiting - {t})), t, InCache(n, job))
       case InCache(n, job) => s' == Lookup(s, t, n, job)
       case NeedInfo(n, job, i) =>
         && i in s.infos
         && var lock := s.infos[i].lock;
            s' == Become(WithLock(s, i, lock.(waiting := lock.waiting + {t})), t, WaitInfo(n, job, i))
       case WaitInfo(n, job, i) =>
         && i in s.infos && Free(s.infos[i].lock)
         && s'.threads.Keys == s.threads.Keys && s'.threads[t].InInfo?
         && var todo := s'.threads[t].todo;
            && todo <= s.infos[i].registered && (job != Publish ==> todo == {})
            && s' == Become(WithLock(s, i, RWMutex(Some(t), {}, s.infos[i].lock.waiting - {t})), t,
                            InInfo(n, job, i, todo))
       case InInfo(n, job, i, todo) =>
         && i in s.infos
         && if todo == {} then (job == Touch(false) ==> CanSend(s, s.nextChan)) && s' == LeaveInfo(s, t, n, job, i)
            else exists c :: c in todo && CanSend(s, c) && s' == Send(s, t, s.threads[t], c)
       case Leaving => s' == Become(s.(cache := s.cache.(writer := None)), t, Done)
       case NeedRead =>
         Admits(s.cache) && s' == Become(s.(cache := s.cache.(readers := s.cache.readers + {t})), t, Reading)
       case Reading => s' == Become(s.(cache := s.cache.(readers := s.cache.readers - {t})), t, Done)
       case NeedInfoRead(i) =>
         && i in s.infos && Admits(s.infos[i].lock)
         && var lock := s.infos[i].lock;
            s' == Become(WithLock(s, i, lock.(readers := lock.readers + {t})), t, ReadingInfo(i))
       case ReadingInfo(i) =>
         && i in s.infos
         && var lock := s.infos[i].lock;
            s' == Become(WithLock(s, i, lock.(readers := lock.readers - {t})), t, Done)
       case Done => false
  }

  /** An operation that has just been called. */
  predicate Fresh(s: State, th: Thread) {
    match th
    case NeedCache(_, job) => job != Register
    case NeedRead => true
    case NeedInfoRead(i) => i in s.infos
    case _ => false
  }

  /** A thread steps, an operation is called, or a stream takes a response out of its channel. */
  ghost predicate Step(s: State, s': State) {
    || (exists t :: ThreadStep(s, t, s'))
    || (exists t, th :: t !in s.threads && Fresh(s, th) && s' == Become(s, t, th))
    || (exists c :: c in s.full && s' == s.(full := s.full - {c}))
  }

  ghost predicate Start(s: State) { s == State(UNLOCKED, map[], map[], {}, 0, 0, map[]) }

  /******* Invariants *******/

  predicate OwnsCache(th: Thread) {
    th.InCache? || th.NeedInfo? || th.WaitInfo? || th.InInfo? || th.Leaving?
  }

  ghost predicate CacheLockOk(s: State, t: nat) {
    && (s.cache.writer == Some(t) <==> t in s.threads && OwnsCache(s.threads[t]))
    && (t in s.cache.readers <==> t in s.threads && s.threads[t].Reading?)
    && (t in s.cache.waiting <==> t in s.threads && s.threads[t].WaitCache?)
  }

  ghost predicate InfoLockOk(s: State, i: nat, t: nat)
    requires i in s.infos
  {
    var lock := s.infos[i].lock;
    && (lock.writer == Some(t) <==> t in s.threads && s.threads[t].InInfo? && s.threads[t].info == i)
    && (t in lock.readers <==> t in s.threads && s.threads[t].ReadingInfo? && s.threads[t].info == i)
    && (t in lock.waiting <==> t in s.threads && s.threads[t].WaitInfo? && s.threads[t].info == i)
  }

  ghost predicate ThreadOk(s: State, t: nat)
    requires t in s.threads
  {
    var th := s.threads[t];
    && (th.NeedInfo? || th.WaitInfo? || th.InInfo? || th.NeedInfoRead? || th.ReadingInfo? ==> th.info in s.infos)
    && (th.InInfo? ==> th.todo <= s.infos[th.info].registered)
  }

  ghost predicate InfoOk(s: State, i: nat)
    requires i in s.infos
  {
    && i < s.nextInfo
    && s.infos[i].registered !! s.full
    && forall c :: c in s.infos[i].registered ==> c < s.nextChan
  }

  /** The locks agree with the threads. */
  ghost predicate LocksInv(s: State) {
    && (forall t :: CacheLockOk(s, t))
    && (forall i, t :: i in s.infos ==> InfoLockOk(s, i, t))
  }

  /** Registered watches have distinct, empty channels. */
  ghost predicate ChannelsInv(s: State) {
    && (forall n :: n in s.status ==> s.status[n] in s.infos)
    && (forall t :: t in s.threads ==> ThreadOk(s, t))
    && (forall i :: i in s.infos ==> InfoOk(s, i))
    && (forall i, j :: i in s.infos && j in s.infos && i != j ==> s.infos[i].registered !! s.infos[j].registered)
    && (forall c :: c in s.full ==> c < s.nextChan)
  }

  /******* One thread step keeps each part *******/

  lemma CacheLockOwn(s: State, t: nat, s': State)
    requires CacheLockOk(s, t) && ThreadStep(s, t, s')
    ensures CacheLockOk(s', t)
  {
  }

  lemma CacheLockOther(s: State, t: nat, s': State, u: nat)
    requires CacheLockOk(s, t) && CacheLockOk(s, u) && ThreadStep(s, t, s') && u != t && AtCache(s.threads[t])
    ensures CacheLockOk(s', u)
  {
  }

  lemma CacheLockAway(s: State, t: nat, s': State, u: nat)
    requires CacheLockOk(s, u) && ThreadStep(s, t, s') && u != t && !AtCache(s.threads[t])
    ensures CacheLockOk(s', u)
  {
  }

  /** The next step of the thread is on the cache mutex. */
  predicate AtCache(th: Thread) {
    th.NeedCache? || th.WaitCache? || th.Leaving? || th.NeedRead? || th.Reading?
  }

  /** A step changes no info but the one its thread is about, except for making a new one. */
  lemma InfoEffect(s: State, t: nat, s': State, i: nat)
    requires ThreadStep(s, t, s') && ThreadOk(s, t) && i in s'.infos
    ensures i !in s.infos ==> i == s.nextInfo && s'.infos[i] == Info(UNLOCKED, {})
    ensures i in s.infos && i != s.nextInfo && !AboutInfo(s.threads[t], i) ==> s'.infos[i] == s.infos[i]
    ensures s'.threads == s.threads[t := s'.threads[t]]
  {
  }

  predicate AboutInfo(th: Thread, i: nat) {
    (th.NeedInfo? || th.WaitInfo? || th.InInfo? || th.NeedInfoRead? || th.ReadingInfo?) && th.info == i
  }

  lemma InfoLockElsewhere(s: State, t: nat, s': State, i: nat, u: nat)
    requires ThreadStep(s, t, s') && ThreadOk(s, t) && i in s'.infos && i != s.nextInfo && !AboutInfo(s.threads[t], i)
    requires i in s.infos && InfoLockOk(s, i, u)
    ensures InfoLockOk(s', i, u)
  {
    InfoEffect(s, t, s', i);
  }

  lemma InfoLockHere(s: State, t: nat, s': State, i: nat, u: nat)
    requires ThreadStep(s, t, s') && ThreadOk(s, t) && i in s.infos && i in s'.infos && AboutInfo(s.threads[t], i)
    requires InfoLockOk(s, i, u) && InfoLockOk(s, i, t)
    ensures InfoLockOk(s', i, u)
  {
  }

  lemma InfoLockThread(s: State, t: nat, s': State, i: nat, u: nat)
    requires LocksInv(s) && ChannelsInv(s) && ThreadStep(s, t, s') && i in s'.infos
    ensures InfoLockOk(s', i, u)
  {
    assert ThreadOk(s, t) && (u in s.threads ==> ThreadOk(s, u));
    InfoEffect(s, t, s', i);
    if i in s.infos {
      assert InfoLockOk(s, i, u) && InfoLockOk(s, i, t) && InfoOk(s, i);
      if AboutInfo(s.threads[t], i) { InfoLockHere(s, t, s', i, u); } else { InfoLockElsewhere(s, t, s', i, u); }
    } else {
      NewInfoUnused(s, t, s', u);
    }
  }

  lemma NewInfoUnused(s: State, t: nat, s': State, u: nat)
    requires ThreadStep(s, t, s') && ThreadOk(s, t) && (u in s.threads ==> ThreadOk(s, u))
    requires s.nextInfo !in s.infos && s.nextInfo in s'.infos
    ensures InfoLockOk(s', s.nextInfo, u)
  {
    InfoEffect(s, t, s', s.nextInfo);
  }

  lemma OwnThreadOk(s: State, t: nat, s': State)
    requires ThreadStep(s, t, s') && ThreadOk(s, t)
    requires forall n :: n in s.status ==> s.status[n] in s.infos
    ensures t in s'.threads && ThreadOk(s', t)
  {
  }

  lemma ThreadOkThread(s: State, t: nat, s': State, u: nat)
    requires LocksInv(s) && ChannelsInv(s) && ThreadStep(s, t, s') && u in s'.threads
    ensures ThreadOk(s', u)
  {
    assert ThreadOk(s, t);
    OwnThreadOk(s, t, s');
    if u != t { OtherThreadOk(s, t, s', u); }
  }

  lemma OtherThreadOk(s: State, t: nat, s': State, u: nat)
    requires LocksInv(s) && ChannelsInv(s) && ThreadStep(s, t, s') && u in s'.threads && u != t
    ensures ThreadOk(s', u)
  {
    assert ThreadOk(s, t);
    InfosGrow(s, t, s');
    assert s'.threads[u] == s.threads[u] && ThreadOk(s, u);
    if s.threads[u].InInfo? {
      var i := s.threads[u].info;
      assert InfoLockOk(s, i, t) && InfoLockOk(s, i, u);
      assert InfoOk(s, i);
      RegisteredKept(s, t, s', i);
    }
  }

  lemma InfosGrow(s: State, t: nat, s': State)
    requires ThreadStep(s, t, s') && ThreadOk(s, t)
    ensures s.infos.Keys <= s'.infos.Keys && s'.threads == s.threads[t := s'.threads[t]]
  {
  }

  /** Only the holder of the info mutex changes which watches are registered. */
  lemma RegisteredKept(s: State, t: nat, s': State, i: nat)
    requires ThreadStep(s, t, s') && ThreadOk(s, t) && i in s.infos && i in s'.infos && i < s.nextInfo
    requires !(s.threads[t].InInfo? && s.threads[t].info == i)
    ensures s'.infos[i].registered == s.infos[i].registered
  {
    if !AboutInfo(s.threads[t], i) { InfoEffect(s, t, s', i); }
  }

  lemma InfoOkThread(s: State, t: nat, s': State, i: nat)
    requires LocksInv(s) && ChannelsInv(s) && ThreadStep(s, t, s') && i in s'.infos
    ensures InfoOk(s', i)
  {
    assert ThreadOk(s, t);
    InfoEffect(s, t, s', i);
    ChannelsEffect(s, t, s');
    if i in s.infos {
      assert InfoOk(s, i);
      if s.threads[t].InInfo? && s.threads[t].info == i {
        InfoOkHere(s, t, s', i);
      } else {
        RegisteredKept(s, t, s', i);
        if s.threads[t].InInfo? {
          assert InfoOk(s, s.threads[t].info) && s.infos[s.threads[t].info].registered !! s.infos[i].registered;
        }
      }
    } else {
      InfoOkNew(s, t, s');
    }
  }

  /** A channel that becomes full is a new one or one that the thread had to answer. */
  lemma ChannelsEffect(s: State, t: nat, s': State)
    requires ThreadStep(s, t, s')
    ensures s.nextChan <= s'.nextChan && s.nextInfo <= s'.nextInfo
    ensures forall c :: c in s'.full && c !in s.full ==>
              c >= s.nextChan || (s.threads[t].InInfo? && c in s.threads[t].todo)
  {
  }

  lemma InfoOkHere(s: State, t: nat, s': State, i: nat)
    requires ThreadStep(s, t, s') && ThreadOk(s, t) && i in s.infos && i in s'.infos && InfoOk(s, i)
    requires s.threads[t].InInfo? && s.threads[t].info == i && forall c :: c in s.full ==> c < s.nextChan
    ensures InfoOk(s', i)
  {
  }

  lemma InfoOkNew(s: State, t: nat, s': State)
    requires ThreadStep(s, t, s') && ThreadOk(s, t) && s.nextInfo !in s.infos && s.nextInfo in s'.infos
    ensures InfoOk(s', s.nextInfo)
  {
  }

  lemma DisjointThread(s: State, t: nat, s': State, i: nat, j: nat)
    requires ChannelsInv(s) && ThreadStep(s, t, s') && i in s'.infos && j in s'.infos && i != j
    ensures s'.infos[i].registered !! s'.infos[j].registered
  {
    assert ThreadOk(s, t);
    if i in s.infos { assert InfoOk(s, i); }
    if j in s.infos { assert InfoOk(s, j); }
  }

  lemma ThreadStepKeeps(s: State, t: nat, s': State)
    requires LocksInv(s) && ChannelsInv(s) && ThreadStep(s, t, s')
    ensures LocksInv(s') && ChannelsInv(s')
  {
    forall u ensures CacheLockOk(s', u) {
      assert CacheLockOk(s, t) && CacheLockOk(s, u);
      if u == t {
        CacheLockOwn(s, t, s');
      } else if AtCache(s.threads[t]) {
        CacheLockOther(s, t, s', u);
      } else {
        CacheLockAway(s, t, s', u);
      }
    }
    forall i, u | i in s'.infos ensures InfoLockOk(s', i, u) { InfoLockThread(s, t, s', i, u); }
    forall u | u in s'.threads ensures ThreadOk(s', u) { ThreadOkThread(s, t, s', u); }
    forall i | i in s'.infos ensures InfoOk(s', i) { InfoOkThread(s, t, s', i); }
    forall i, j | i in s'.infos && j in s'.infos && i != j ensures s'.infos[i].registered !! s'.infos[j].registered {
      DisjointThread(s, t, s', i, j);
    }
    StatusThread(s, t, s');
  }

  lemma StatusThread(s: State, t: nat, s': State)
    requires ChannelsInv(s) && ThreadStep(s, t, s')
    ensures forall n :: n in s'.status ==> s'.status[n] in s'.infos
    ensures forall c :: c in s'.full ==> c < s'.nextChan
  {
    assert ThreadOk(s, t);
    var th := s.threads[t];
    if th.InInfo? { assert InfoOk(s, th.info); }
  }

  lemma StepKeeps(s: State, s': State)
    requires LocksInv(s) && ChannelsInv(s) && Step(s, s')
    ensures LocksInv(s') && ChannelsInv(s')
  {
    if t :| ThreadStep(s, t, s') {
      ThreadStepKeeps(s, t, s');
    } else {
      forall u ensures CacheLockOk(s', u) { assert CacheLockOk(s, u); }
      forall i, u | i in s'.infos ensures InfoLockOk(s', i, u) { assert InfoLockOk(s, i, u); }
      forall u | u in s'.threads ensures ThreadOk(s', u) { if u in s.threads { assert ThreadOk(s, u); } }
      forall i | i in s'.infos ensures InfoOk(s', i) { assert InfoOk(s, i); }
    }
  }

  /******* Theorems *******/

  ghost predicate IsRun(states: seq<State>) {
    states != [] && Start(states[0]) && forall i :: 0 < i < |states| ==> Step(states[i - 1], states[i])
  }

  lemma {:induction false} RunKeeps(states: seq<State>, i: nat)
    requires IsRun(states) && i < |states|
    ensures LocksInv(states[i]) && ChannelsInv(states[i])
  {
    if i > 0 {
      RunKeeps(states, i - 1);
      StepKeeps(states[i - 1], states[i]);
    }
  }

  /** A send made under the locks never blocks: whichever watch SetSnapshot answers next, its channel is empty, and so
      is the channel that CreateWatch makes. */
  lemma SendsNeverBlock(states: seq<State>, i: nat)
    requires IsRun(states) && i < |states|
    ensures CanSend(states[i], states[i].nextChan)
    ensures forall t, c :: t in states[i].threads && states[i].threads[t].InInfo? && c in states[i].threads[t].todo ==>
              CanSend(states[i], c)
  {
    RunKeeps(states, i);
    var s := states[i];
    forall t, c | t in s.threads && s.threads[t].InInfo? && c in s.threads[t].todo ensures CanSend(s, c) {
      assert ThreadOk(s, t) && InfoOk(s, s.threads[t].info);
    }
  }

  /******* What the locks are for *******/

  ghost predicate Exclusive(m: RWMutex) { m.writer.Some? ==> m.readers == {} }

  ghost predicate ExclusiveInv(s: State) {
    Exclusive(s.cache) && forall i :: i in s.infos ==> Exclusive(s.infos[i].lock)
  }

  lemma ExclusiveThread(s: State, t: nat, s': State, i: nat)
    requires ThreadStep(s, t, s') && ThreadOk(s, t) && Exclusive(s.cache) && i in s'.infos
    requires i in s.infos ==> Exclusive(s.infos[i].lock) && i < s.nextInfo
    ensures Exclusive(s'.cache) && Exclusive(s'.infos[i].lock)
  {
    InfoEffect(s, t, s', i);
  }

  lemma {:induction false} RunExclusive(states: seq<State>, i: nat)
    requires IsRun(states) && i < |states|
    ensures ExclusiveInv(states[i])
  {
    if i > 0 {
      RunExclusive(states, i - 1);
      RunKeeps(states, i - 1);
      ExclusiveStep(states[i - 1], states[i]);
    }
  }

  lemma ExclusiveStep(s: State, s': State)
    requires ChannelsInv(s) && ExclusiveInv(s) && Step(s, s')
    ensures ExclusiveInv(s')
  {
    if t :| ThreadStep(s, t, s') {
      assert ThreadOk(s, t);
      ExclusiveCache(s, t, s');
      forall i | i in s'.infos ensures Exclusive(s'.infos[i].lock) {
        assert i in s.infos ==> InfoOk(s, i);
        ExclusiveThread(s, t, s', i);
      }
    }
  }

  lemma ExclusiveCache(s: State, t: nat, s': State)
    requires ThreadStep(s, t, s') && Exclusive(s.cache)
    ensures Exclusive(s'.cache)
  {
  }

  /** Who holds the cache mutex for writing holds it alone, and likewise for every info mutex. */
  lemma MutualExclusion(states: seq<State>, i: nat, t: nat, u: nat)
    requires IsRun(states) && i < |states| && t in states[i].threads && u in states[i].threads && t != u
    ensures var a, b := states[i].threads[t], states[i].threads[u];
            && (OwnsCache(a) ==> !OwnsCache(b) && !b.Reading?)
            && (a.InInfo? && (b.InInfo? || b.ReadingInfo?) ==> a.info != b.info)
  {
    RunKeeps(states, i);
    RunExclusive(states, i);
    var s := states[i];
    assert CacheLockOk(s, t) && CacheLockOk(s, u) && ThreadOk(s, t) && ThreadOk(s, u);
    if s.threads[t].InInfo? {
      assert InfoLockOk(s, s.threads[t].info, t) && InfoLockOk(s, s.threads[t].info, u);
    }
  }

  /** What the last step under an info mutex has done: a cancelled watch is no longer registered; a watch left open is
      registered with a new, empty channel; an answer given at once is in a new channel; nothing else is touched. */
  lemma JobsDone(s: State, t: nat, s': State)
    requires ChannelsInv(s) && ThreadStep(s, t, s') && s.threads[t].InInfo? && s.threads[t].todo == {}
    ensures var th := s.threads[t];
            var before, after := s.infos[th.info].registered, s'.infos[th.info].registered;
            match th.job
            case Remove(c) => after == before - {c} && s'.full == s.full && s'.threads[t] == Leaving
            case Register =>
              && after == before + {s.nextChan} && s.nextChan !in s'.full && s'.nextChan == s.nextChan + 1
              && s'.threads[t] == Leaving
            case Touch(true) =>
              after == before && s'.full == s.full && s'.threads[t] == NeedInfo(th.node, Register, th.info)
            case Touch(false) =>
              && after == before && s'.full == s.full + {s.nextChan} && s'.nextChan == s.nextChan + 1
              && s'.threads[t] == Leaving
            case Publish => after == before && s'.full == s.full && s'.threads[t] == Leaving
            case Forget => after == before && s'.full == s.full
  {
    assert ThreadOk(s, t) && InfoOk(s, s.threads[t].info);
  }

  /** Clearing a node forgets its status. */
  lemma ForgetDone(s: State, t: nat, s': State)
    requires ThreadStep(s, t, s') && s.threads[t].InCache? && s.threads[t].job == Forget
    ensures s'.status == s.status - {s.threads[t].node} && s'.infos == s.infos && s'.threads[t] == Leaving
  {
  }

  ghost predicate CanStep(s: State, t: nat) { exists s' :: ThreadStep(s, t, s') }

  lemma InInfoSteps(s: State, t: nat)
    requires ChannelsInv(s) && t in s.threads && s.threads[t].InInfo?
    ensures CanStep(s, t)
  {
    var th := s.threads[t];
    assert ThreadOk(s, t) && InfoOk(s, th.info);
    if c :| c in th.todo {
      assert ThreadStep(s, t, Send(s, t, th, c));
    } else {
      assert CanSend(s, s.nextChan);
      assert ThreadStep(s, t, LeaveInfo(s, t, th.node, th.job, th.info));
    }
  }

  /** Threads that are past every lock they wait for can always go on. */
  lemma UnhinderedSteps(s: State, t: nat)
    requires ChannelsInv(s) && t in s.threads
    requires var th := s.threads[t];
             th.NeedCache? || th.InCache? || th.NeedInfo? || th.Leaving? || th.Reading? || th.ReadingInfo?
    ensures CanStep(s, t)
  {
    assert ThreadOk(s, t);
    match s.threads[t]
    case NeedCache(n, job) =>
      assert ThreadStep(s, t, Become(s.(cache := s.cache.(waiting := s.cache.waiting + {t})), t, WaitCache(n, job)));
    case InCache(n, job) => assert ThreadStep(s, t, Lookup(s, t, n, job));
    case NeedInfo(n, job, i) =>
      var lock := s.infos[i].lock;
      assert ThreadStep(s, t, Become(WithLock(s, i, lock.(waiting := lock.waiting + {t})), t, WaitInfo(n, job, i)));
    case Leaving => assert ThreadStep(s, t, Become(s.(cache := s.cache.(writer := None)), t, Done));
    case Reading => assert ThreadStep(s, t, Become(s.(cache := s.cache.(readers := s.cache.readers - {t})), t, Done));
    case ReadingInfo(i) =>
      var lock := s.infos[i].lock;
      assert ThreadStep(s, t, Become(WithLock(s, i, lock.(readers := lock.readers - {t})), t, Done));
  }

  /** Waiting for an info mutex: either it is granted, or someone holds that info mutex and can go on. */
  lemma WaitInfoSteps(s: State, t: nat) returns (u: nat)
    requires LocksInv(s) && ChannelsInv(s) && t in s.threads && s.threads[t].WaitInfo?
    ensures u in s.threads && CanStep(s, u)
  {
    var th := s.threads[t];
    assert ThreadOk(s, t);
    var lock := s.infos[th.info].lock;
    if lock.writer.Some? {
      u := lock.writer.value;
      assert InfoLockOk(s, th.info, u);
      InInfoSteps(s, u);
    } else if r :| r in lock.readers {
      u := r;
      assert InfoLockOk(s, th.info, u);
      UnhinderedSteps(s, u);
    } else {
      u := t;
      assert ThreadStep(s, t, Become(WithLock(s, th.info, RWMutex(Some(t), {}, lock.waiting - {t})), t,
                                     InInfo(th.node, th.job, th.info, {})));
    }
  }

  /** Someone holds the cache mutex: then someone can go on. */
  lemma CacheOwnerSteps(s: State, t: nat) returns (u: nat)
    requires LocksInv(s) && ChannelsInv(s) && t in s.threads && OwnsCache(s.threads[t])
    ensures u in s.threads && CanStep(s, u)
  {
    u := t;
    if s.threads[t].WaitInfo? {
      u := WaitInfoSteps(s, t);
    } else if s.threads[t].InInfo? {
      InInfoSteps(s, t);
    } else {
      UnhinderedSteps(s, t);
    }
  }

  lemma WaitCacheSteps(s: State, t: nat) returns (u: nat)
    requires LocksInv(s) && ChannelsInv(s) && t in s.threads && s.threads[t].WaitCache?
    ensures u in s.threads && CanStep(s, u)
  {
    if s.cache.writer.Some? {
      assert CacheLockOk(s, s.cache.writer.value);
      u := CacheOwnerSteps(s, s.cache.writer.value);
    } else if r :| r in s.cache.readers {
      u := r;
      assert CacheLockOk(s, u);
      UnhinderedSteps(s, u);
    } else {
      u := t;
      var th := s.threads[t];
      var granted := s.(cache := RWMutex(Some(t), {}, s.cache.waiting - {t}));
      assert ThreadStep(s, t, Become(granted, t, InCache(th.node, th.job)));
    }
  }

  /** A reader is let in, or the writer that keeps it out can go on, or someone that writer waits for. */
  lemma ReaderSteps(s: State, t: nat) returns (u: nat)
    requires LocksInv(s) && ChannelsInv(s) && t in s.threads && (s.threads[t].NeedRead? || s.threads[t].NeedInfoRead?)
    ensures u in s.threads && CanStep(s, u)
  {
    assert ThreadOk(s, t);
    u := t;
    if s.threads[t].NeedRead? {
      if s.cache.writer.Some? {
        assert CacheLockOk(s, s.cache.writer.value);
        u := CacheOwnerSteps(s, s.cache.writer.value);
      } else if q :| q in s.cache.waiting {
        assert CacheLockOk(s, q);
        u := WaitCacheSteps(s, q);
      } else {
        assert ThreadStep(s, t, Become(s.(cache := s.cache.(readers := s.cache.readers + {t})), t, Reading));
      }
    } else {
      var i := s.threads[t].info;
      var lock := s.infos[i].lock;
      if lock.writer.Some? {
        u := lock.writer.value;
        assert InfoLockOk(s, i, u);
        InInfoSteps(s, u);
      } else if q :| q in lock.waiting {
        assert InfoLockOk(s, i, q);
        u := WaitInfoSteps(s, q);
      } else {
        assert ThreadStep(s, t, Become(WithLock(s, i, lock.(readers := lock.readers + {t})), t, ReadingInfo(i)));
      }
    }
  }

  /** Deadlock freedom: in every state that any interleaving of the operations can reach, as long as some
      operation is unfinished, some operation can take its next step. */
  lemma DeadlockFreedom(states: seq<State>, i: nat, t: nat) returns (u: nat)
    requires IsRun(states) && i < |states|
    requires t in states[i].threads && states[i].threads[t] != Done
    ensures u in states[i].threads && CanStep(states[i], u)
  {
    RunKeeps(states, i);
    var s := states[i];
    if OwnsCache(s.threads[t]) {
      u := CacheOwnerSteps(s, t);
    } else if s.threads[t].WaitCache? {
      u := WaitCacheSteps(s, t);
    } else if s.threads[t].NeedRead? || s.threads[t].NeedInfoRead? {
      u := ReaderSteps(s, t);
    } else {
      u := t;
      UnhinderedSteps(s, t);
    }
  }

  /** How many lock operations a thread has left at most; Touch leads back to Register. */
  function Left(th: Thread): nat {
    match th
    case NeedCache(_, _) => 10
    case WaitCache(_, _) => 9
    case InCache(_, _) => 8
    case NeedInfo(_, job, _) => if job == Register then 4 else 7
    case WaitInfo(_, job, _) => if job == Register then 3 else 6
    case InInfo(_, job, _, _) => if job == Register then 2 else 5
    case Leaving => 1
    case NeedRead => 2
    case Reading => 1
    case NeedInfoRead(_) => 2
    case ReadingInfo(_) => 1
    case Done => 0
  }

  /** Every step takes its own thread forward, by a lock operation or by one answered watch. */
  ghost predicate Forward(th: Thread, th': Thread) {
    || Left(th') < Left(th)
    || (Left(th') == Left(th) && th.InInfo? && th'.InInfo? && th'.todo < th.todo)
  }

  lemma ForwardOutside(s: State, t: nat, s': State)
    requires ThreadStep(s, t, s') && !s.threads[t].InCache? && !s.threads[t].WaitInfo? && !s.threads[t].InInfo?
    ensures t in s'.threads && Forward(s.threads[t], s'.threads[t])
  {
  }

  lemma ForwardInCache(s: State, t: nat, s': State)
    requires ThreadStep(s, t, s') && (s.threads[t].InCache? || s.threads[t].WaitInfo?)
    ensures t in s'.threads && Forward(s.threads[t], s'.threads[t])
  {
  }

  lemma ForwardInInfo(s: State, t: nat, s': State)
    requires ThreadStep(s, t, s') && s.threads[t].InInfo?
    ensures t in s'.threads && Forward(s.threads[t], s'.threads[t])
  {
  }

  lemma StepsForward(s: State, t: nat, s': State)
    requires ThreadStep(s, t, s')
    ensures t in s'.threads && Forward(s.threads[t], s'.threads[t])
  {
    if s.threads[t].InInfo? {
      ForwardInInfo(s, t, s');
    } else if s.threads[t].InCache? || s.threads[t].WaitInfo? {
      ForwardInCache(s, t, s');
    } else {
      ForwardOutside(s, t, s');
    }
  }

  /******* Every interleaving finishes *******/

  ghost function Sum(m: map<nat, nat>): nat
    decreases m.Keys
  {
    if m == map[] then 0 else var k :| k in m; m[k] + Sum(m - {k})
  }

  lemma {:induction false} SumWithout(m: map<nat, nat>, k: nat)
    requires k in m
    ensures Sum(m) == m[k] + Sum(m - {k})
    decreases m.Keys
  {
    var p :| p in m && Sum(m) == m[p] + Sum(m - {p});
    if p != k {
      SumWithout(m - {p}, k);
      SumWithout(m - {k}, p);
      assert m - {p} - {k} == m - {k} - {p};
    }
  }

  lemma SumUpdate(m: map<nat, nat>, k: nat, v: nat)
    requires k in m
    ensures Sum(m[k := v]) + m[k] == Sum(m) + v
  {
    SumWithout(m, k);
    SumWithout(m[k := v], k);
    assert m[k := v] - {k} == m - {k};
  }

  ghost function Lefts(s: State): map<nat, nat> { map t | t in s.threads :: Left(s.threads[t]) }

  ghost function Todos(s: State): map<nat, nat> {
    map t | t in s.threads :: if s.threads[t].InInfo? then |s.threads[t].todo| else 0
  }

  /** The work left over all threads is well-founded and goes down with every step, so no interleaving of finitely
      many operations goes on for ever; with deadlock freedom, it can only stop when all of them are done. */
  lemma EveryStepLowersWork(s: State, t: nat, s': State)
    requires ThreadStep(s, t, s')
    ensures Sum(Lefts(s')) < Sum(Lefts(s)) || (Sum(Lefts(s')) == Sum(Lefts(s)) && Sum(Todos(s')) < Sum(Todos(s)))
  {
    StepsForward(s, t, s');
    StepThreads(s, t, s');
    var v := Left(s'.threads[t]);
    assert Lefts(s') == Lefts(s)[t := v];
    SumUpdate(Lefts(s), t, v);
    if v == Left(s.threads[t]) {
      var n := |s'.threads[t].todo|;
      assert Todos(s') == Todos(s)[t := n];
      SumUpdate(Todos(s), t, n);
      FewerElements(s'.threads[t].todo, s.threads[t].todo);
    }
  }

  lemma StepThreads(s: State, t: nat, s': State)
    requires ThreadStep(s, t, s')
    ensures t in s'.threads && s'.threads == s.threads[t := s'.threads[t]]
  {
  }

  lemma FewerElements(a: set<nat>, b: set<nat>)
    requires a < b
    ensures |a| < |b|
  {
    assert |b - a| == |b| - |a| && b - a != {};
  }
}
