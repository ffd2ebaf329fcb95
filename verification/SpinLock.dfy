/** The reentrant spin lock in shared memory (src/biter/shmutil.c).  Any number of
    threads, in any number of processes, call take_lock, test_lock and release_lock.
    A step is one read or one write of a shared word (or the atomic test-and-set), so
    a run is any interleaving of the individual accesses. */
module SpinLock {

  datatype Call = Take | Test | Release

  // The next access of a thread that is inside a call.
  datatype Pc =
    | Idle
    | ReadLock(call: Call)     // *lock->lock == 1 && ..
    | ReadHolder(call: Call)   // .. *lock->held_by == gettid()
    | ReadCount(call: Call)    // ref_count++, read half
    | WriteCount(call: Call)   // ref_count++, write half
    | Spin                     // take_lock: while (*lock->lock == 1)
    | Recheck                  // test_lock: if (*lock->lock == 1)
    | Swap(call: Call)         // __sync_lock_test_and_set
    | SetHolder(call: Call)
    | SetCount(call: Call)
    | RelReadHolder
    | RelReadCount
    | RelCountDown             // ref_count--, read half
    | RelWriteCount            // ref_count--, write half
    | RelClearCount
    | RelClearHolder
    | RelUnlock

  // depth counts the successful calls of take and test minus those of release.
  datatype Thread = Thread(pc: Pc, seen: int, depth: nat, result: int)

  // lock and heldBy are shared; every process has its own ref_count.
  // Thread t runs in process home[t].
  datatype State = State(locked: bool, heldBy: int, refCount: seq<int>, home: seq<nat>, threads: seq<Thread>)

  // Thread identifiers are positive; 0 is the initial content of shared memory and
  // -1 is what release_lock leaves behind.
  function Tid(t: nat): int { t as int + 1 }

  const NOBODY: int := -1

  predicate Shape(s: State)
  {
    && |s.home| == |s.threads|
    && forall t :: 0 <= t < |s.home| ==> s.home[t] < |s.refCount|
  }

  predicate Init(s: State)
  {
    && Shape(s)
    && !s.locked && (s.heldBy == 0 || s.heldBy == NOBODY)
    && forall t :: 0 <= t < |s.threads| ==> s.threads[t].pc == Idle && s.threads[t].depth == 0
  }

  // ---- the three functions, access by access

  function Goto(s: State, t: nat, pc: Pc): State
    requires t < |s.threads|
  {
    s.(threads := s.threads[t := s.threads[t].(pc := pc)])
  }

  // Return from a call, having acquired (+1), released (-1) or neither.
  function Return(s: State, t: nat, result: int, depth: nat): State
    requires t < |s.threads|
  {
    s.(threads := s.threads[t := s.threads[t].(pc := Idle, result := result, depth := depth)])
  }

  function Begin(s: State, t: nat, call: Call): State
    requires t < |s.threads|
  {
    Goto(s, t, if call == Release then RelReadHolder else ReadLock(call))
  }

  function Access(s: State, t: nat): State
    requires Shape(s) && t < |s.threads|
  {
    var me := s.threads[t];
    var count := s.refCount[s.home[t]];
    match me.pc
    case Idle => s
    case ReadLock(call) =>
      if s.locked then Goto(s, t, ReadHolder(call)) else Goto(s, t, Contend(call))
    case ReadHolder(call) =>
      if s.heldBy == Tid(t) then Goto(s, t, ReadCount(call)) else Goto(s, t, Contend(call))
    case ReadCount(call) =>
      s.(threads := s.threads[t := me.(pc := WriteCount(call), seen := count)])
    case WriteCount(call) =>
      Return(s.(refCount := s.refCount[s.home[t] := me.seen + 1]), t, Success(call), me.depth + 1)
    case Spin =>
      if s.locked then s else Goto(s, t, Swap(Take))
    case Recheck =>
      if s.locked then Return(s, t, 0, me.depth) else Goto(s, t, Swap(Test))
    case Swap(call) =>
      if s.locked then (if call == Test then Return(s, t, 0, me.depth) else Goto(s, t, Spin))
      else Goto(s.(locked := true), t, SetHolder(call))
    case SetHolder(call) =>
      Goto(s.(heldBy := Tid(t)), t, SetCount(call))
    case SetCount(call) =>
      Return(s.(refCount := s.refCount[s.home[t] := 1]), t, Success(call), me.depth + 1)
    case RelReadHolder =>
      if s.heldBy != Tid(t) then Return(s, t, -1, me.depth) else Goto(s, t, RelReadCount)
    case RelReadCount =>
      Goto(s, t, if count > 1 then RelCountDown else RelClearCount)
    case RelCountDown =>
      s.(threads := s.threads[t := me.(pc := RelWriteCount, seen := count)])
    case RelWriteCount =>
      Return(s.(refCount := s.refCount[s.home[t] := me.seen - 1]), t, 0, if me.depth > 0 then me.depth - 1 else 0)
    case RelClearCount =>
      Goto(s.(refCount := s.refCount[s.home[t] := 0]), t, RelClearHolder)
    case RelClearHolder =>
      Goto(s.(heldBy := NOBODY), t, RelUnlock)
    case RelUnlock =>
      Return(s.(locked := false), t, 0, if me.depth > 0 then me.depth - 1 else 0)
  }

  function Contend(call: Call): Pc
  {
    if call == Test then Recheck else Spin
  }

  // take_lock returns 0, test_lock returns 1.
  function Success(call: Call): int
  {
    if call == Test then 1 else 0
  }

  predicate Next(s: State, s': State)
  {
    Shape(s) && exists t: nat :: t < |s.threads| && StepOf(s, t, s')
  }

  predicate StepOf(s: State, t: nat, s': State)
    requires Shape(s) && t < |s.threads|
  {
    if s.threads[t].pc == Idle then exists call :: s' == Begin(s, t, call)
    else s' == Access(s, t)
  }

  ghost predicate Run(tr: seq<State>)
  {
    && |tr| > 0
    && Init(tr[0])
    && forall i {:trigger Next(tr[i], tr[i + 1])} :: 0 <= i < |tr| - 1 ==> Next(tr[i], tr[i + 1])
  }

  // --------------------------------------------------------------- invariant

  // A thread owns the lock from its successful test-and-set until it writes the
  // lock word back.
  predicate Owns(me: Thread)
  {
    me.depth > 0 || me.pc.SetHolder? || me.pc.SetCount?
  }

  // What the program point of a thread says about its depth.
  predicate DepthOk(me: Thread)
  {
    match me.pc
    case ReadCount(_) => me.depth > 0
    case WriteCount(_) => me.depth > 0 && me.seen == me.depth
    case Spin => me.depth == 0
    case Recheck => me.depth == 0
    case Swap(_) => me.depth == 0
    case SetHolder(_) => me.depth == 0
    case SetCount(_) => me.depth == 0
    case RelReadCount => me.depth > 0
    case RelCountDown => me.depth > 1
    case RelWriteCount => me.depth > 1 && me.seen == me.depth
    case RelClearCount => me.depth == 1
    case RelClearHolder => me.depth == 1
    case RelUnlock => me.depth == 1
    case _ => true
  }

  // The process's ref_count, while one of its threads owns the lock.
  predicate CountOk(me: Thread, count: int)
  {
    (me.pc.RelClearHolder? || me.pc.RelUnlock? ==> count == 0) &&
    (Owns(me) && !me.pc.SetHolder? && !me.pc.SetCount? && !me.pc.RelClearHolder? && !me.pc.RelUnlock? ==> count == me.depth)
  }

  // Is held_by this thread's identifier?
  predicate ShowsInHolder(me: Thread)
  {
    Owns(me) && !me.pc.SetHolder? && !me.pc.RelUnlock?
  }

  predicate ThreadOk(s: State, t: nat)
    requires Shape(s) && t < |s.threads|
  {
    var me := s.threads[t];
    && DepthOk(me)
    && CountOk(me, s.refCount[s.home[t]])
    && (s.heldBy == Tid(t) <==> ShowsInHolder(me))
    && (Owns(me) ==> s.locked)
  }

  ghost predicate Inv(s: State)
  {
    && Shape(s)
    && (forall t: nat :: t < |s.threads| ==> ThreadOk(s, t))
    && (forall t: nat, u: nat :: t < |s.threads| && u < |s.threads| && Owns(s.threads[t]) && Owns(s.threads[u]) ==> t == u)
    && (s.locked ==> exists t: nat :: t < |s.threads| && Owns(s.threads[t]))
  }

  // A thread that writes to shared memory owns the lock, or is about to.
  lemma OnlyOwnersWrite(s: State, t: nat, s': State)
    requires Inv(s) && t < |s.threads| && StepOf(s, t, s')
    ensures s'.home == s.home && |s'.refCount| == |s.refCount| && |s'.threads| == |s.threads|
    ensures forall u: nat :: u < |s.threads| && u != t ==> s'.threads[u] == s.threads[u]
    ensures !Owns(s.threads[t]) ==>
      s'.heldBy == s.heldBy && s'.refCount == s.refCount && (s'.locked == s.locked || (s.threads[t].pc.Swap? && !s.locked))
  {
    assert ThreadOk(s, t);
  }

  lemma OwnThreadOk(s: State, t: nat, s': State)
    requires Inv(s) && t < |s.threads| && StepOf(s, t, s')
    ensures Shape(s') && |s'.threads| == |s.threads| && ThreadOk(s', t)
  {
    assert ThreadOk(s, t);
  }

  lemma OtherThreadOk(s: State, t: nat, s': State, u: nat)
    requires Inv(s) && t < |s.threads| && StepOf(s, t, s') && u < |s.threads| && u != t
    ensures Shape(s') && |s'.threads| == |s.threads| && ThreadOk(s', u)
  {
    assert ThreadOk(s, t) && ThreadOk(s, u);
    OnlyOwnersWrite(s, t, s');
    if Owns(s.threads[t]) {
      assert !Owns(s.threads[u]);
      assert s'.heldBy == s.heldBy || s'.heldBy == Tid(t) || s'.heldBy == NOBODY;
    }
  }

  lemma StillOneOwner(s: State, t: nat, s': State)
    requires Inv(s) && t < |s.threads| && StepOf(s, t, s')
    ensures |s'.threads| == |s.threads|
    ensures forall u: nat :: u < |s.threads| && u != t && Owns(s'.threads[u]) ==> !Owns(s'.threads[t])
    ensures s'.locked ==> exists u: nat :: u < |s'.threads| && Owns(s'.threads[u])
  {
    assert ThreadOk(s, t);
    OnlyOwnersWrite(s, t, s');
    forall u: nat | u < |s.threads| && u != t && Owns(s'.threads[u])
      ensures !Owns(s'.threads[t])
    {
      assert ThreadOk(s, u);
    }
    if s'.locked {
      if s.locked && !Owns(s.threads[t]) {
        var o: nat :| o < |s.threads| && Owns(s.threads[o]);
        assert Owns(s'.threads[o]);
      } else {
        assert Owns(s'.threads[t]);
      }
    }
  }

  lemma StepInv(s: State, t: nat, s': State)
    requires Inv(s) && t < |s.threads| && StepOf(s, t, s')
    ensures Inv(s')
  {
    OwnThreadOk(s, t, s');
    StillOneOwner(s, t, s');
    OnlyOwnersWrite(s, t, s');
    forall u: nat | u < |s'.threads|
      ensures ThreadOk(s', u)
    {
      if u != t {
        OtherThreadOk(s, t, s', u);
      }
    }
  }

  lemma {:induction false} RunInv(tr: seq<State>, i: nat)
    requires Run(tr) && i < |tr|
    ensures Inv(tr[i])
  {
    if i > 0 {
      RunInv(tr, i - 1);
      var k := i - 1;
      assert Next(tr[k], tr[k + 1]);
      var t: nat :| t < |tr[i - 1].threads| && StepOf(tr[i - 1], t, tr[i]);
      StepInv(tr[i - 1], t, tr[i]);
    }
  }

  // ------------------------------------------------------------ main theorems

  /** Mutual exclusion: in every interleaving at most one thread holds the lock, the
      lock word is set exactly while some thread owns it, and held_by names a thread
      only while that thread owns it. */
  lemma MutualExclusion(tr: seq<State>, i: nat, t: nat, u: nat)
    requires Run(tr) && i < |tr| && t < |tr[i].threads| && u < |tr[i].threads|
    ensures tr[i].threads[t].depth > 0 && tr[i].threads[u].depth > 0 ==> t == u
    ensures tr[i].heldBy == Tid(t) ==> Owns(tr[i].threads[t])
    ensures tr[i].locked <==> exists o: nat :: o < |tr[i].threads| && Owns(tr[i].threads[o])
  {
    RunInv(tr, i);
    assert ThreadOk(tr[i], t) && ThreadOk(tr[i], u);
    if exists o: nat :: o < |tr[i].threads| && Owns(tr[i].threads[o]) {
      var o: nat :| o < |tr[i].threads| && Owns(tr[i].threads[o]);
      assert ThreadOk(tr[i], o);
    }
  }

  /** Between calls, the ref_count of the holder's process is its nesting depth, and
      held_by is the holder. */
  lemma CountIsDepth(tr: seq<State>, i: nat, t: nat)
    requires Run(tr) && i < |tr| && t < |tr[i].threads| && Shape(tr[i])
    requires tr[i].threads[t].pc == Idle && tr[i].threads[t].depth > 0
    ensures tr[i].refCount[tr[i].home[t]] == tr[i].threads[t].depth
    ensures tr[i].heldBy == Tid(t) && tr[i].locked
  {
    RunInv(tr, i);
    assert ThreadOk(tr[i], t);
  }

  /** The first access of release_lock decides: the call fails exactly for a thread
      that does not hold the lock, and then changes nothing that is shared. */
  lemma ReleaseByNonOwner(tr: seq<State>, i: nat, t: nat)
    requires Run(tr) && i < |tr| && t < |tr[i].threads| && Shape(tr[i])
    requires tr[i].threads[t].pc == RelReadHolder
    ensures var s, s' := tr[i], Access(tr[i], t);
      && (s.threads[t].depth == 0 <==> s'.threads[t].pc == Idle && s'.threads[t].result == -1)
      && s'.locked == s.locked && s'.heldBy == s.heldBy && s'.refCount == s.refCount
      && s'.threads[t].depth == s.threads[t].depth
  {
    RunInv(tr, i);
    assert ThreadOk(tr[i], t);
  }

  /** A holder that takes the lock again never waits: it reaches neither the spin
      loop nor the test-and-set, whatever the other threads do meanwhile. */
  lemma HolderNeverSpins(tr: seq<State>, i: nat, t: nat)
    requires Run(tr) && i < |tr| && t < |tr[i].threads|
    requires tr[i].threads[t].depth > 0
    ensures !tr[i].threads[t].pc.Spin? && !tr[i].threads[t].pc.Recheck? && !tr[i].threads[t].pc.Swap?
  {
    RunInv(tr, i);
    assert ThreadOk(tr[i], t);
  }

  /** The last release hands the lock back: when it returns, no thread owns it. */
  lemma LastReleaseFrees(tr: seq<State>, i: nat, t: nat, u: nat)
    requires Run(tr) && i < |tr| && t < |tr[i].threads| && u < |tr[i].threads| && Shape(tr[i])
    requires tr[i].threads[t].pc == RelUnlock
    ensures var s' := Access(tr[i], t);
      !s'.locked && s'.heldBy == NOBODY && s'.refCount[s'.home[t]] == 0 && !Owns(s'.threads[u])
  {
    RunInv(tr, i);
    assert ThreadOk(tr[i], t) && ThreadOk(tr[i], u);
    HolderIsNobody(tr, i, t);
  }

  // A thread about to unlock has cleared the holder, and keeps it cleared.
  lemma NobodyStep(s: State, v: nat, s': State, t: nat)
    requires Inv(s) && v < |s.threads| && StepOf(s, v, s') && t < |s.threads| == |s'.threads| && s'.threads[t].pc == RelUnlock
    requires s.threads[t].pc == RelUnlock ==> s.heldBy == NOBODY
    ensures s'.heldBy == NOBODY
  {
    assert ThreadOk(s, t) && ThreadOk(s, v);
    if v != t {
      OnlyOwnersWrite(s, v, s');
    }
  }

  lemma {:induction false} HolderIsNobody(tr: seq<State>, i: nat, t: nat)
    requires Run(tr) && i < |tr| && t < |tr[i].threads|
    requires tr[i].threads[t].pc == RelUnlock
    ensures tr[i].heldBy == NOBODY
    decreases i
  {
    if i > 0 {
      var s := tr[i - 1];
      RunInv(tr, i - 1);
      var k := i - 1;
      assert Next(tr[k], tr[k + 1]);
      var v: nat :| v < |s.threads| && StepOf(s, v, tr[i]);
      OnlyOwnersWrite(s, v, tr[i]);
      if s.threads[t].pc == RelUnlock {
        HolderIsNobody(tr, i - 1, t);
      }
      NobodyStep(s, v, tr[i], t);
    }
  }

  // ------------------------------------------------------------- what a call answers

  // The call that a thread at this point is in.
  function CallAt(pc: Pc): (call: Call)
    requires pc != Idle
  {
    match pc
    case ReadLock(c) => c
    case ReadHolder(c) => c
    case ReadCount(c) => c
    case WriteCount(c) => c
    case Spin => Take
    case Recheck => Test
    case Swap(c) => c
    case SetHolder(c) => c
    case SetCount(c) => c
    case _ => Release
  }

  // Points of take_lock and test_lock only.
  predicate CallOk(pc: Pc)
  {
    match pc
    case Idle => true
    case Spin => true
    case Recheck => true
    case RelReadHolder => true
    case RelReadCount => true
    case RelCountDown => true
    case RelWriteCount => true
    case RelClearCount => true
    case RelClearHolder => true
    case RelUnlock => true
    case _ => pc.call != Release
  }

  /** What the three functions promise: take_lock returns 0 once the lock is held one level
      deeper; test_lock returns 1 in that case and 0 if it changed nothing; release_lock
      returns 0 if it gave one level back, -1 if there was none. */
  predicate Answer(call: Call, before: nat, after: nat, result: int)
  {
    match call
    case Take => result == 0 && after == before + 1
    case Test => (result == 1 && after == before + 1) || (result == 0 && after == before)
    case Release => (result == 0 && before > 0 && after == before - 1) || (result == -1 && before == 0 && after == 0)
  }

  lemma OwnCall(s: State, t: nat)
    requires Inv(s) && t < |s.threads| && s.threads[t].pc != Idle && CallOk(s.threads[t].pc)
    ensures var me, me' := s.threads[t], Access(s, t).threads[t];
      && CallOk(me'.pc)
      && (me'.pc != Idle ==> CallAt(me'.pc) == CallAt(me.pc) && me'.depth == me.depth)
      && (me'.pc == Idle ==> Answer(CallAt(me.pc), me.depth, me'.depth, me'.result))
  {
    assert ThreadOk(s, t);
  }

  predicate Busy(s: State, t: nat)
  {
    t < |s.threads| && s.threads[t].pc != Idle
  }

  // Thread t makes the call in states i to j: it begins it at i and returns from it at j.
  ghost predicate Calls(tr: seq<State>, i: nat, j: nat, t: nat, call: Call)
  {
    && Run(tr) && i < j < |tr| && t < |tr[i].threads| && tr[i].threads[t].pc == Idle && tr[i + 1] == Begin(tr[i], t, call)
    && (forall m {:trigger Busy(tr[m], t)} :: i < m < j ==> Busy(tr[m], t))
    && t < |tr[j].threads| && tr[j].threads[t].pc == Idle
  }

  lemma InCallStep(s: State, v: nat, s': State, t: nat)
    requires Inv(s) && v < |s.threads| && StepOf(s, v, s') && t < |s.threads| && s.threads[t].pc != Idle && CallOk(s.threads[t].pc)
    ensures |s'.threads| == |s.threads|
    ensures var me, me' := s.threads[t], s'.threads[t];
      && CallOk(me'.pc)
      && (me'.pc != Idle ==> CallAt(me'.pc) == CallAt(me.pc) && me'.depth == me.depth)
      && (me'.pc == Idle ==> v == t && Answer(CallAt(me.pc), me.depth, me'.depth, me'.result))
  {
    OnlyOwnersWrite(s, v, s');
    if v == t {
      OwnCall(s, t);
    }
  }

  lemma Began(s: State, t: nat, call: Call)
    requires t < |s.threads| && s.threads[t].pc == Idle
    ensures var me := Begin(s, t, call).threads[t];
      CallOk(me.pc) && me.pc != Idle && CallAt(me.pc) == call && me.depth == s.threads[t].depth
  {
  }

  lemma RunCallStep(tr: seq<State>, m: nat, t: nat)
    requires Run(tr) && m + 1 < |tr| && Busy(tr[m], t) && CallOk(tr[m].threads[t].pc)
    ensures |tr[m + 1].threads| == |tr[m].threads|
    ensures var me, me' := tr[m].threads[t], tr[m + 1].threads[t];
      && CallOk(me'.pc)
      && (me'.pc != Idle ==> CallAt(me'.pc) == CallAt(me.pc) && me'.depth == me.depth)
      && (me'.pc == Idle ==> Answer(CallAt(me.pc), me.depth, me'.depth, me'.result))
  {
    RunInv(tr, m);
    assert Next(tr[m], tr[m + 1]);
    var v: nat :| v < |tr[m].threads| && StepOf(tr[m], v, tr[m + 1]);
    InCallStep(tr[m], v, tr[m + 1], t);
  }

  // Thread t is in the call, with the depth it began with.
  predicate Within(s: State, t: nat, call: Call, depth: nat)
  {
    Busy(s, t) && CallOk(s.threads[t].pc) && CallAt(s.threads[t].pc) == call && s.threads[t].depth == depth
  }

  lemma {:induction false} InCall(tr: seq<State>, i: nat, j: nat, t: nat, call: Call, m: nat)
    requires Calls(tr, i, j, t, call) && i < m < j
    ensures Within(tr[m], t, call, tr[i].threads[t].depth)
    decreases m
  {
    assert Busy(tr[m], t);
    if m == i + 1 {
      Began(tr[i], t, call);
    } else {
      InCall(tr, i, j, t, call, m - 1);
      RunCallStep(tr, m - 1, t);
    }
  }

  /** In every interleaving, what a call returns says what it did to the caller's depth. */
  lemma ResultIsOutcome(tr: seq<State>, i: nat, j: nat, t: nat, call: Call)
    requires Calls(tr, i, j, t, call)
    ensures Answer(call, tr[i].threads[t].depth, tr[j].threads[t].depth, tr[j].threads[t].result)
  {
    Began(tr[i], t, call);
    InCall(tr, i, j, t, call, j - 1);
    RunCallStep(tr, j - 1, t);
  }

  lemma {:induction false} RunCallOk(tr: seq<State>, i: nat, t: nat)
    requires Run(tr) && i < |tr| && t < |tr[i].threads|
    ensures CallOk(tr[i].threads[t].pc)
    decreases i
  {
    if i > 0 {
      var k := i - 1;
      RunInv(tr, k);
      assert Next(tr[k], tr[k + 1]);
      var v: nat :| v < |tr[k].threads| && StepOf(tr[k], v, tr[k + 1]);
      OnlyOwnersWrite(tr[k], v, tr[i]);
      RunCallOk(tr, k, t);
      if v == t && tr[k].threads[t].pc != Idle {
        OwnCall(tr[k], t);
      }
    }
  }

  /** test_lock returns 0 only at a moment at which another thread owns the lock. */
  lemma TestFailsOnlyIfOwned(tr: seq<State>, i: nat, t: nat)
    requires Run(tr) && i < |tr| && Busy(tr[i], t) && Shape(tr[i]) && CallAt(tr[i].threads[t].pc) == Test
    requires var me' := Access(tr[i], t).threads[t]; me'.pc == Idle && me'.result == 0
    ensures exists u: nat :: u < |tr[i].threads| && u != t && Owns(tr[i].threads[u])
  {
    RunInv(tr, i);
    RunCallOk(tr, i, t);
    assert ThreadOk(tr[i], t);
    assert !Owns(tr[i].threads[t]);
  }

  // ------------------------------------------------------------- every call gets through

  // k accesses of thread t with nobody else running.
  function Alone(s: State, t: nat, k: nat): (s': State)
    requires Shape(s) && t < |s.threads|
    ensures Shape(s') && |s'.threads| == |s.threads|
    decreases k
  {
    if k == 0 then s else Alone(Access(s, t), t, k - 1)
  }

  // How many accesses a call still takes at most, if the lock is free or its own.
  function Remaining(pc: Pc): nat
  {
    match pc
    case Idle => 0
    case ReadLock(_) => 6
    case ReadHolder(_) => 5
    case ReadCount(_) => 2
    case WriteCount(_) => 1
    case Spin => 4
    case Recheck => 4
    case Swap(_) => 3
    case SetHolder(_) => 2
    case SetCount(_) => 1
    case RelReadHolder => 5
    case RelReadCount => 4
    case RelCountDown => 2
    case RelWriteCount => 1
    case RelClearCount => 3
    case RelClearHolder => 2
    case RelUnlock => 1
  }

  predicate FreeFor(s: State, t: nat)
    requires t < |s.threads|
  {
    s.locked ==> Owns(s.threads[t])
  }

  lemma AloneStep(s: State, t: nat)
    requires Inv(s) && t < |s.threads| && s.threads[t].pc != Idle && CallOk(s.threads[t].pc) && FreeFor(s, t)
    ensures var s' := Access(s, t);
      && |s'.threads| == |s.threads| && FreeFor(s', t) && Remaining(s'.threads[t].pc) < Remaining(s.threads[t].pc)
      && (s'.threads[t].pc == Idle && CallAt(s.threads[t].pc) != Release ==> s'.threads[t].depth == s.threads[t].depth + 1)
  {
    assert ThreadOk(s, t);
  }

  /** test_lock and release_lock never wait: in every reachable state, whoever owns the lock,
      each access brings the call closer to its end, and take_lock is only held up while
      another thread owns the lock. */
  lemma OnlyTakeWaits(tr: seq<State>, i: nat, t: nat)
    requires Run(tr) && i < |tr| && Busy(tr[i], t) && Shape(tr[i])
    ensures Remaining(tr[i].threads[t].pc) <= 6
    ensures Remaining(Access(tr[i], t).threads[t].pc) < Remaining(tr[i].threads[t].pc)
      || (CallAt(tr[i].threads[t].pc) == Take && exists u: nat :: u < |tr[i].threads| && u != t && Owns(tr[i].threads[u]))
  {
    RunInv(tr, i);
    RunCallOk(tr, i, t);
    assert ThreadOk(tr[i], t);
    if tr[i].locked && !Owns(tr[i].threads[t]) {
      var u: nat :| u < |tr[i].threads| && Owns(tr[i].threads[u]);
      assert u != t;
    } else {
      AloneStep(tr[i], t);
    }
  }

  lemma {:induction false} GetsThrough(s: State, t: nat) returns (k: nat)
    requires Inv(s) && Busy(s, t) && CallOk(s.threads[t].pc) && FreeFor(s, t)
    ensures var me, me' := s.threads[t], Alone(s, t, k).threads[t];
      && me'.pc == Idle && Answer(CallAt(me.pc), me.depth, me'.depth, me'.result)
      && (CallAt(me.pc) != Release ==> me'.depth == me.depth + 1)
    ensures k <= Remaining(s.threads[t].pc)
    decreases Remaining(s.threads[t].pc)
  {
    var s' := Access(s, t);
    AloneStep(s, t);
    OwnCall(s, t);
    if s'.threads[t].pc == Idle {
      assert Alone(s', t, 0) == s';
      k := 1;
    } else {
      StepInv(s, t, s');
      var k' := GetsThrough(s', t);
      k := k' + 1;
    }
  }

  /** A caller that runs alone gets through: from every reachable state in which no other
      thread owns the lock, take_lock and test_lock return with the lock within six
      accesses, and release_lock returns too. */
  lemma FreeLockIsTaken(tr: seq<State>, i: nat, t: nat) returns (k: nat)
    requires Run(tr) && i < |tr| && Busy(tr[i], t) && Shape(tr[i])
    requires forall u: nat :: u < |tr[i].threads| && Owns(tr[i].threads[u]) ==> u == t
    ensures k <= 6
    ensures var me, me' := tr[i].threads[t], Alone(tr[i], t, k).threads[t];
      && me'.pc == Idle && Answer(CallAt(me.pc), me.depth, me'.depth, me'.result)
      && (CallAt(me.pc) != Release ==> me'.depth == me.depth + 1)
  {
    RunInv(tr, i);
    RunCallOk(tr, i, t);
    k := GetsThrough(tr[i], t);
  }
}
