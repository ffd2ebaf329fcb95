/** A full heap does not hold up the readers for good.  When a reader drains a message, the
    mark that the heap is blocked goes (src/biter/client_queue.c:132), and a reader whose
    frame stands behind a stashed one can queue that one and get its bytes, without any help
    from the target of the stashed frame. */
module DemultiplexProgress {
  import opened Collections
  import opened Bytes
  import opened Demultiplex
  import opened DemultiplexSafety
  import opened DemultiplexRuns

  // --------------------------------------------------------------- letting go of the queues

  // What steps of processes on their own queues leave alone.
  predicate Aside(s: State, s': State, who: set<nat>)
  {
    && |s'.procs| == |s.procs| == |s.queues| == |s'.queues|
    && (forall x: nat :: x < |s.procs| && x !in who ==> s'.procs[x] == s.procs[x] && s'.queues[x] == s.queues[x])
    && s'.stash == s.stash && s'.pipeLock == s.pipeLock && s'.frames == s.frames && (s'.heapBlocked ==> s.heapBlocked)
  }

  // How far the holder of the queue lock is from letting go of it.
  function PcRank(pc: Pc): nat
  {
    if pc.Unblock? then 2 else if pc.Dequeue? then 1 else 0
  }

  // A step of the holder: it lets go, or is closer to it.
  predicate Nearer(s: State, s': State, c: nat)
    requires c < |s.procs| == |s.queues| && c < |s'.procs| == |s'.queues|
  {
    || s'.queueLock.None?
    || (s'.queueLock == Some(c) &&
        if |s'.queues[c]| != |s.queues[c]| then |s'.queues[c]| < |s.queues[c]|
        else if Wanted(s'.procs[c]) != Wanted(s.procs[c]) then Wanted(s'.procs[c]) < Wanted(s.procs[c])
        else PcRank(s'.procs[c].pc) < PcRank(s.procs[c].pc))
  }

  lemma CopyGoes(s: State, c: nat)
    requires Shape(s) && c < |s.procs| && s.queueLock == Some(c) && s.procs[c].pc.Dequeue?
    ensures var s' := QueueAct(s, c); Aside(s, s', {c}) && Nearer(s, s', c)
  {
    if s.queues[c] != [] && |s.procs[c].buf| < s.procs[c].size {
      assert GoodMessage(s.queues[c][0]);
      CopyConserves(s.queues[c], Wanted(s.procs[c]));
    }
  }

  lemma LetsGo(s: State, c: nat)
    requires Shape(s) && c < |s.procs| && s.queueLock == Some(c)
    requires s.procs[c].pc.Unblock? || s.procs[c].pc.ReleaseQueueLock?
    ensures var s' := QueueAct(s, c); Aside(s, s', {c}) && Nearer(s, s', c)
  {
  }

  lemma QueueHolderGoes(s: State, c: nat) returns (s': State)
    requires Inv(s) && c < |s.procs| && s.queueLock == Some(c) && s.stash.Some?
    ensures Inv(s') && Reaches(s, {c}, s') && Aside(s, s', {c}) && Nearer(s, s', c)
  {
    assert ProcOk(s, c);
    s' := Goes(s, c, 0, true);
    if s.procs[c].pc.Dequeue? {
      CopyGoes(s, c);
    } else if !s.procs[c].pc.EnqueueUnlock? {
      LetsGo(s, c);
    }
  }

  // Whoever holds the queue lock finishes its copying and lets go of it.
  lemma {:induction false} FreeQueue(s: State, c: nat) returns (s': State)
    requires Inv(s) && c < |s.procs| && s.queueLock == Some(c) && s.stash.Some?
    ensures Inv(s') && Reaches(s, {c}, s') && Aside(s, s', {c}) && s'.queueLock.None?
    decreases |s.queues[c]|, Wanted(s.procs[c]), PcRank(s.procs[c].pc)
  {
    var s1 := QueueHolderGoes(s, c);
    if s1.queueLock.None? {
      s' := s1;
    } else {
      s' := FreeQueue(s1, c);
      ReachJoin(s, s1, s', {c});
    }
  }

  // ------------------------------------------------------------------- draining a message

  // Process a loops for its bytes, and the first message of its queue fits its request.
  predicate HasFitting(s: State, a: nat)
  {
    && Shape(s) && a < |s.procs| && s.procs[a].pc == HasMessage(false) && s.queues[a] != []
    && |s.queues[a][0].data| - s.queues[a][0].bytesRead <= Wanted(s.procs[a])
  }

  lemma SeesMessage(s: State, a: nat, locked: bool) returns (s': State)
    requires Inv(s) && a < |s.procs| && s.procs[a].pc == HasMessage(locked) && s.queues[a] != []
    ensures Inv(s') && Reaches(s, {a}, s') && s' == At(s, a, TakeQueueLock(locked))
  {
    s' := Goes(s, a, 0, true);
  }

  lemma StartsCopying(s: State, a: nat, locked: bool) returns (s': State)
    requires Inv(s) && a < |s.procs| && s.procs[a].pc == HasMessage(locked) && s.queues[a] != [] && s.queueLock.None?
    ensures Inv(s') && Reaches(s, {a}, s') && s' == At(s, a, Dequeue(locked)).(queueLock := Some(a))
  {
    var s1 := SeesMessage(s, a, locked);
    s' := Goes(s1, a, 0, true);
    ReachJoin(s, s1, s', {a});
  }

  lemma TakesWhole(s: State, a: nat) returns (s': State)
    requires Inv(s) && a < |s.procs| && s.procs[a].pc == Dequeue(false) && s.queues[a] != [] && s.queueLock == Some(a)
    requires |s.queues[a][0].data| - s.queues[a][0].bytesRead <= Wanted(s.procs[a])
    ensures Inv(s') && Reaches(s, {a}, s') && Aside(s, s', {a}) && s'.queueLock == s.queueLock && s'.procs[a].pc == Unblock(false)
  {
    assert GoodMessage(s.queues[a][0]);
    s' := Goes(s, a, 0, true);
  }

  lemma Unmarks(s: State, a: nat, locked: bool) returns (s': State)
    requires Inv(s) && a < |s.procs| && s.procs[a].pc == Unblock(locked)
    ensures Inv(s') && Reaches(s, {a}, s') && s' == At(s, a, Dequeue(locked)).(heapBlocked := false)
  {
    s' := Goes(s, a, 0, true);
  }

  lemma AsideJoin(s: State, t: State, u: State, who: set<nat>)
    requires Aside(s, t, who) && Aside(t, u, who)
    ensures Aside(s, u, who)
  {
  }

  // The two halves of a schedule by the same processes on the side.
  lemma JoinAside(s: State, t: State, u: State, who: set<nat>)
    requires Reaches(s, who, t) && Aside(s, t, who) && Reaches(t, who, u) && Aside(t, u, who)
    ensures Reaches(s, who, u) && Aside(s, u, who)
  {
    ReachJoin(s, t, u, who);
    AsideJoin(s, t, u, who);
  }

  lemma MoreAside(s: State, s': State, who: set<nat>, more: set<nat>)
    requires Reaches(s, who, s') && Aside(s, s', who) && who <= more
    ensures Reaches(s, more, s') && Aside(s, s', more)
  {
    ReachMore(s, s', who, more);
  }

  // With the queues free, process a drains its message and lets go again.
  lemma Drains(s: State, a: nat) returns (s': State)
    requires Inv(s) && HasFitting(s, a) && s.queueLock.None? && s.stash.Some?
    ensures Inv(s') && Reaches(s, {a}, s') && Aside(s, s', {a}) && s'.queueLock.None? && !s'.heapBlocked
  {
    var s1 := StartsCopying(s, a, false);
    var s2 := TakesWhole(s1, a);
    var s3 := Unmarks(s2, a, false);
    s' := FreeQueue(s3, a);
    JoinAside(s1, s2, s3, {a});
    JoinAside(s1, s3, s', {a});
    JoinAside(s, s1, s', {a});
  }

  // The holder of the queue lock, if there is one.
  function Holder(s: State): set<nat>
  {
    if s.queueLock.None? then {} else {s.queueLock.value}
  }

  lemma QueueFreed(s: State, a: nat) returns (s': State)
    requires Inv(s) && HasFitting(s, a) && s.stash.Some?
    ensures Inv(s') && Reaches(s, Holder(s), s') && Aside(s, s', Holder(s)) && s'.queueLock.None? && a !in Holder(s)
  {
    assert ProcOk(s, a);
    if s.queueLock.None? {
      s' := s;
      ReachNothing(s, {});
    } else {
      s' := FreeQueue(s, s.queueLock.value);
    }
  }

  /** Case B of demultiplex_read's comment: with the heap marked blocked and a frame stashed, a
      reader that has a whole message in its queue that fits its request can clear the mark.
      Nobody but that reader and whoever holds the queue lock takes a step. */
  lemma DrainClearsMark(s: State, a: nat) returns (s': State)
    requires Inv(s) && HasFitting(s, a) && s.stash.Some?
    ensures Inv(s') && Reaches(s, Holder(s) + {a}, s') && Aside(s, s', Holder(s) + {a})
    ensures !s'.heapBlocked && s'.queueLock.None?
  {
    var s1 := QueueFreed(s, a);
    s' := Drains(s1, a);
    var who := Holder(s) + {a};
    MoreAside(s, s1, Holder(s), who);
    MoreAside(s1, s', {a}, who);
    JoinAside(s, s1, s', who);
  }

  // -------------------------------------------------------- queueing the frame in hand

  // Process b has the pipe; nobody is at the queues.
  ghost predicate Has(s: State, b: nat)
  {
    Inv(s) && b < |s.procs| && s.pipeLock == Some(b) && s.queueLock.None?
  }

  // The request of b and the frames behind the one in hand are as they were.
  predicate SameRequest(s: State, s': State, b: nat)
    requires b < |s.procs|
  {
    && |s'.procs| == |s.procs| && s'.frames == s.frames
    && s'.procs[b].size == s.procs[b].size && s'.procs[b].buf == s.procs[b].buf
  }

  // There is room: b takes message space for the frame in hand.
  lemma GetsSpace(s: State, b: nat) returns (s': State)
    requires Has(s, b) && s.procs[b].pc == Allocate
    ensures Has(s', b) && Reaches(s, {b}, s') && SameRequest(s, s', b)
    ensures s'.procs[b].pc == Fill && s'.procs[b].space == [] && s'.pending == s.pending
  {
    var s1 := FindsRoom(s, b);
    s' := ClearsMark(s1, b);
    ReachJoin(s, s1, s', {b});
  }

  lemma ClearsMark(s: State, b: nat) returns (s': State)
    requires Has(s, b) && s.procs[b].pc == ClearBlocked
    ensures Has(s', b) && Reaches(s, {b}, s')
    ensures s' == SetProc(s, b, s.procs[b].(pc := Fill, space := [])).(heapBlocked := false)
  {
    s' := Goes(s, b, 0, true);
  }

  lemma FindsRoom(s: State, b: nat) returns (s': State)
    requires Has(s, b) && s.procs[b].pc == Allocate
    ensures Has(s', b) && Reaches(s, {b}, s') && s' == At(s, b, ClearBlocked)
  {
    s' := Goes(s, b, 0, true);
  }

  lemma RestIsThere(s: State, b: nat)
    requires Has(s, b) && s.procs[b].pc == Fill && s.pending == []
    ensures |s.procs[b].space| < s.procs[b].header.size <= |s.procs[b].space| + |s.pipe|
  {
    assert ProcOk(s, b);
    assert [] + s.pipe + [] == s.pipe;
  }

  lemma FillsSpace(s: State, b: nat) returns (s': State)
    requires Has(s, b) && s.procs[b].pc == Fill && s.procs[b].space == [] && s.pending == []
    ensures Has(s', b) && Reaches(s, {b}, s') && SameRequest(s, s', b) && s'.procs[b].pc == EnqueueLock
  {
    RestIsThere(s, b);
    s' := Goes(s, b, s.procs[b].header.size, true);
    assert s' == TakeForOther(s, b, s.procs[b].header.size);
  }

  lemma TakesQueue(s: State, b: nat) returns (s': State)
    requires Has(s, b) && s.procs[b].pc == EnqueueLock
    ensures Inv(s') && Reaches(s, {b}, s')
    ensures s' == s.(queueLock := Some(b), procs := s.procs[b := s.procs[b].(pc := Enqueue)])
  {
    s' := Goes(s, b, 0, true);
  }

  lemma HandsOver(s: State, b: nat) returns (s': State)
    requires Inv(s) && b < |s.procs| && s.pipeLock == Some(b) && s.queueLock == Some(b) && s.procs[b].pc == Enqueue
    ensures Inv(s') && Reaches(s, {b}, s') && SameRequest(s, s', b)
    ensures s'.procs[b].pc == EnqueueUnlock && s'.pipeLock == Some(b) && s'.stash.None?
  {
    assert ProcOk(s, b);
    s' := Goes(s, b, 0, true);
  }

  lemma LeavesQueue(s: State, b: nat) returns (s': State)
    requires Inv(s) && b < |s.procs| && s.pipeLock == Some(b) && s.procs[b].pc == EnqueueUnlock && s.stash.None?
    ensures Has(s', b) && Reaches(s, {b}, s') && SameRequest(s, s', b)
    ensures s'.procs[b].pc == LoopPc(s'.procs[b]) && s'.stash.None?
  {
    s' := Goes(s, b, 0, true);
  }

  lemma PutsInQueue(s: State, b: nat) returns (s': State)
    requires Has(s, b) && s.procs[b].pc == EnqueueLock
    ensures Has(s', b) && Reaches(s, {b}, s') && SameRequest(s, s', b)
    ensures s'.procs[b].pc == LoopPc(s'.procs[b]) && s'.stash.None?
  {
    var s1 := TakesQueue(s, b);
    var s2 := HandsOver(s1, b);
    s' := LeavesQueue(s2, b);
    ReachJoin(s, s1, s2, {b});
    ReachJoin(s, s2, s', {b});
  }

  // The frame in hand goes to the queue of its target.
  lemma QueuesFrame(s: State, b: nat) returns (s': State)
    requires Has(s, b) && s.procs[b].pc == Allocate
    ensures Has(s', b) && Reaches(s, {b}, s') && SameRequest(s, s', b)
    ensures s'.procs[b].pc == LoopPc(s'.procs[b]) && s'.stash.None?
  {
    var s1 := GetsSpace(s, b);
    var s2 := Flush(s1, {b});
    var s3 := FillsSpace(s2, b);
    s' := PutsInQueue(s3, b);
    ReachJoin(s, s1, s2, {b});
    ReachJoin(s, s2, s3, {b});
    ReachJoin(s, s3, s', {b});
  }

  // ------------------------------------------------------------- up to the own frame

  // With the mark clear, b gets as far as the stashed frame.
  lemma GetsPipe(s: State, b: nat) returns (s': State)
    requires Inv(s) && Polls(s, b) && s.pipeLock.None? && s.queueLock.None? && !s.heapBlocked
    ensures Has(s', b) && Reaches(s, {b}, s') && SameRequest(s, s', b)
    ensures s'.procs[b].pc == NextFrame && s'.stash == s.stash
  {
    var s1 := GrabPipe(s, b);
    s' := ChecksMark(s1, b);
    ReachJoin(s, s1, s', {b});
  }

  lemma TakesForeign(s: State, b: nat) returns (s': State)
    requires Has(s, b) && s.procs[b].pc == NextFrame && s.stash.Some? && s.stash.value.target != b
    ensures Has(s', b) && Reaches(s, {b}, s') && SameRequest(s, s', b) && s'.procs[b].pc == Allocate
  {
    var s1 := Goes(s, b, 0, true);
    assert s1 == SetProc(s, b, s.procs[b].(pc := GotHeader, header := s.stash.value)).(stash := None);
    s' := SeesForeign(s1, b);
    ReachJoin(s, s1, s', {b});
  }

  // The stashed frame is queued for its target.
  lemma QueuesStashed(s: State, b: nat) returns (s': State)
    requires Inv(s) && Polls(s, b) && s.pipeLock.None? && s.queueLock.None? && !s.heapBlocked
    requires s.stash.Some? && s.stash.value.target != b
    ensures Has(s', b) && Reaches(s, {b}, s') && SameRequest(s, s', b)
    ensures s'.procs[b].pc == NextFrame && s'.stash.None?
  {
    assert ProcOk(s, b);
    var s1 := GetsPipe(s, b);
    var s2 := TakesForeign(s1, b);
    s' := QueuesFrame(s2, b);
    ReachJoin(s, s1, s2, {b});
    ReachJoin(s, s2, s', {b});
  }

  // Whatever is left of the frame is queued, and the call returns.
  lemma Returns(s: State, b: nat) returns (s': State)
    requires Has(s, b) && |s.procs[b].buf| == s.procs[b].size && (s.procs[b].pc == Allocate || s.procs[b].pc == ReleasePipeLock)
    ensures Reaches(s, {b}, s') && |s'.procs| == |s.procs| && s'.procs[b].pc == Idle && s'.procs[b].buf == s.procs[b].buf
  {
    var s1 := s;
    if s.procs[b].pc == Allocate {
      s1 := QueuesFrame(s, b);
    } else {
      ReachNothing(s, {b});
    }
    s' := EndsCall(s1, b);
    ReachJoin(s, s1, s', {b});
  }

  // The frame at the front is for somebody else, and is queued.
  lemma PassesForeign(s: State, b: nat) returns (s': State)
    requires Has(s, b) && s.procs[b].pc == NextFrame && s.stash.None? && s.frames != [] && s.frames[0].target != b
    ensures Has(s', b) && Reaches(s, {b}, s') && |s'.procs| == |s.procs| && s'.frames == s.frames[1..]
    ensures s'.procs[b].pc == NextFrame && s'.stash.None?
    ensures s'.procs[b].buf == s.procs[b].buf && s'.procs[b].size == s.procs[b].size
  {
    assert ProcOk(s, b);
    var s1 := GetsFrame(s, b);
    var s2 := SeesForeign(s1, b);
    s' := QueuesFrame(s2, b);
    ReachJoin(s, s1, s2, {b});
    ReachJoin(s, s2, s', {b});
  }

  // The frame at the front is b's own: b has all its bytes, or goes on to the next.
  lemma TakesOwn(s: State, b: nat) returns (s': State)
    requires Has(s, b) && s.procs[b].pc == NextFrame && s.stash.None? && s.frames != [] && s.frames[0].target == b
    ensures Has(s', b) && Reaches(s, {b}, s') && |s'.procs| == |s.procs| && s'.frames == s.frames[1..] && s'.stash.None?
    ensures s'.procs[b].size == s.procs[b].size
    ensures var w, data := Wanted(s.procs[b]), s.frames[0].data;
      if w <= |data| then
        && s'.procs[b].buf == s.procs[b].buf + data[..w] && |s'.procs[b].buf| == s'.procs[b].size
        && (s'.procs[b].pc == Allocate || s'.procs[b].pc == ReleasePipeLock)
      else
        && s'.procs[b].buf == s.procs[b].buf + data && s'.procs[b].pc == NextFrame
  {
    assert ProcOk(s, b);
    var s1 := GetsFrame(s, b);
    s' := ReadsOwn(s1, b);
    assert s.frames[0].data[..|s.frames[0].data|] == s.frames[0].data;
    ReachJoin(s, s1, s', {b});
  }

  lemma FrontPart<T>(buf: seq<T>, data: seq<T>, rest: seq<T>, w: nat)
    requires w <= |data + rest|
    ensures w <= |data| ==> buf + data[..w] == buf + (data + rest)[..w]
    ensures |data| <= w ==> buf + data + rest[..w - |data|] == buf + (data + rest)[..w]
  {
  }

  /** Alone with the pipe, b queues what is not for it and gets its bytes, wherever they stand. */
  lemma {:induction false} ReadsThrough(s: State, b: nat) returns (s': State)
    requires Has(s, b) && s.procs[b].pc == NextFrame && s.stash.None? && Wanted(s.procs[b]) <= |PayloadFor(s.frames, b)|
    ensures Reaches(s, {b}, s') && |s'.procs| == |s.procs| && s'.procs[b].pc == Idle
    ensures s'.procs[b].buf == s.procs[b].buf + PayloadFor(s.frames, b)[..Wanted(s.procs[b])]
    decreases |s.frames|
  {
    assert ProcOk(s, b);
    var w := Wanted(s.procs[b]);
    if s.frames[0].target != b {
      assert [] + PayloadFor(s.frames[1..], b) == PayloadFor(s.frames[1..], b);
      var s1 := PassesForeign(s, b);
      s' := ReadsThrough(s1, b);
      ReachJoin(s, s1, s', {b});
    } else {
      var s1 := TakesOwn(s, b);
      FrontPart(s.procs[b].buf, s.frames[0].data, PayloadFor(s.frames[1..], b), w);
      if w <= |s.frames[0].data| {
        s' := Returns(s1, b);
      } else {
        s' := ReadsThrough(s1, b);
      }
      ReachJoin(s, s1, s', {b});
    }
  }

  /** With the mark clear and the pipe and the queues free, a polling reader can return with the
      next bytes sent to it, wherever they stand in the pipe and behind a frame stashed for
      somebody else; nobody else takes a step. */
  lemma ReadsPastStash(s: State, b: nat) returns (s': State)
    requires Inv(s) && Polls(s, b) && s.pipeLock.None? && s.queueLock.None? && !s.heapBlocked
    requires s.stash.Some? ==> s.stash.value.target != b
    requires Wanted(s.procs[b]) <= |PayloadFor(s.frames, b)|
    ensures Reaches(s, {b}, s') && |s'.procs| == |s.procs| && s'.procs[b].pc == Idle
    ensures s'.procs[b].buf == s.procs[b].buf + PayloadFor(s.frames, b)[..Wanted(s.procs[b])]
  {
    var s1: State;
    if s.stash.Some? {
      s1 := QueuesStashed(s, b);
    } else {
      s1 := GetsPipe(s, b);
    }
    s' := ReadsThrough(s1, b);
    ReachJoin(s, s1, s', {b});
  }

  // -------------------------------------------------------------------------- together

  lemma DrainThenRead(s: State, a: nat, b: nat) returns (s': State)
    requires Inv(s) && s.pipeLock.None? && s.stash.Some? && s.stash.value.target != b
    requires HasFitting(s, a) && a != b && Polls(s, b) && Wanted(s.procs[b]) <= |PayloadFor(s.frames, b)|
    ensures Reaches(s, Holder(s) + {a, b}, s') && |s'.procs| == |s.procs| && s'.procs[b].pc == Idle
    ensures s'.procs[b].buf == s.procs[b].buf + PayloadFor(s.frames, b)[..Wanted(s.procs[b])]
  {
    assert ProcOk(s, b);
    var s1 := DrainClearsMark(s, a);
    s' := ReadsPastStash(s1, b);
    var who := Holder(s) + {a, b};
    ReachMore(s, s1, Holder(s) + {a}, who);
    ReachMore(s1, s', {b}, who);
    ReachJoin(s, s1, s', who);
  }

  // A schedule in which process t takes no step.
  predicate Without(es: seq<Event>, t: nat)
  {
    forall i :: 0 <= i < |es| ==> !(es[i].Step? && es[i].a == t) && !(es[i].CallRead? && es[i].a == t)
  }

  /** A full heap is not the end: in every reachable state with the heap marked blocked, a
      frame stashed for t and the pipe free, if reader a has a message in its queue that fits
      its request and reader b polls for bytes that stand anywhere behind the stashed frame,
      there is a schedule in which b's read returns exactly those bytes, and t takes no step
      in it, unless it holds the queue lock. */
  lemma BlockedHeapDrains(tr: seq<State>, run: seq<Event>, i: nat, a: nat, b: nat, t: nat) returns (es: seq<Event>, s': State)
    requires Run(tr, run) && i < |tr| && tr[i].heapBlocked && tr[i].stash.Some? && tr[i].stash.value.target == t
    requires tr[i].pipeLock.None? && t != a && t != b && a != b && HasFitting(tr[i], a) && Polls(tr[i], b)
    requires Wanted(tr[i].procs[b]) <= |PayloadFor(tr[i].frames, b)|
    ensures Leads(tr[i], es, s') && |s'.procs| == |tr[i].procs| && s'.procs[b].pc == Idle
    ensures s'.procs[b].buf == tr[i].procs[b].buf + PayloadFor(tr[i].frames, b)[..Wanted(tr[i].procs[b])]
    ensures tr[i].queueLock != Some(t) ==> Without(es, t)
  {
    RunInv(tr, run, i);
    s' := DrainThenRead(tr[i], a, b);
    es :| Via(tr[i], es, Holder(tr[i]) + {a, b}, s');
  }

  /** And in every reachable state, whoever holds the pipe, such a message clears the mark and
      leaves the stash as it is. */
  lemma BlockedHeapUnblocks(tr: seq<State>, run: seq<Event>, i: nat, a: nat, t: nat) returns (es: seq<Event>, s': State)
    requires Run(tr, run) && i < |tr| && tr[i].heapBlocked && tr[i].stash.Some? && tr[i].stash.value.target == t
    requires t != a && HasFitting(tr[i], a)
    ensures Leads(tr[i], es, s') && !s'.heapBlocked && s'.stash == tr[i].stash && s'.pipeLock == tr[i].pipeLock
    ensures tr[i].queueLock != Some(t) ==> Without(es, t)
  {
    RunInv(tr, run, i);
    s' := DrainClearsMark(tr[i], a);
    es :| Via(tr[i], es, Holder(tr[i]) + {a}, s');
  }

  // ------------------------------------------------------- bytes that wait in the queue

  // Process a holds the queue lock and copies, with enough to copy.
  ghost predicate Copying(s: State, a: nat, locked: bool)
  {
    && Inv(s) && a < |s.procs| && s.queueLock == Some(a) && s.procs[a].pc == Dequeue(locked)
    && Wanted(s.procs[a]) <= |Unread(s.queues[a])|
  }

  // What is copied and what is left is what there was.
  predicate Copies(s: State, s': State, a: nat)
    requires Shape(s) && Shape(s') && a < |s.procs| == |s'.procs|
  {
    && s'.procs[a].size == s.procs[a].size
    && s'.procs[a].buf + Unread(s'.queues[a]) == s.procs[a].buf + Unread(s.queues[a])
  }

  lemma CopyAct(s: State, a: nat)
    requires Shape(s) && a < |s.procs| && s.procs[a].pc.Dequeue? && s.queues[a] != [] && |s.procs[a].buf| < s.procs[a].size
    ensures var s' := QueueAct(s, a);
      && Shape(s') && |s'.procs| == |s.procs| && Copies(s, s', a) && s'.queueLock == s.queueLock
      && |s.procs[a].buf| < |s'.procs[a].buf| <= s.procs[a].size
      && s'.procs[a].pc == (if |s'.queues[a]| < |s.queues[a]| then Unblock(s.procs[a].pc.locked) else s.procs[a].pc)
  {
    var p, q := s.procs[a], s.queues[a];
    assert GoodMessage(q[0]);
    CopyConserves(q, Wanted(p));
    Regroup(p.buf, Copied(q, Wanted(p)), Unread(AfterCopy(q, Wanted(p))));
  }

  lemma CopyStep(s: State, a: nat, locked: bool) returns (s': State)
    requires Copying(s, a, locked) && Wanted(s.procs[a]) > 0
    ensures Copying(s', a, locked) && Reaches(s, {a}, s') && |s'.procs| == |s.procs| && Copies(s, s', a)
    ensures Wanted(s'.procs[a]) < Wanted(s.procs[a])
  {
    var s1 := CopyOnce(s, a, locked);
    if s1.procs[a].pc.Unblock? {
      s' := Unmarks(s1, a, locked);
      ReachJoin(s, s1, s', {a});
    } else {
      s' := s1;
    }
  }

  lemma CopyOnce(s: State, a: nat, locked: bool) returns (s': State)
    requires Copying(s, a, locked) && Wanted(s.procs[a]) > 0
    ensures Inv(s') && Reaches(s, {a}, s') && |s'.procs| == |s.procs| && Copies(s, s', a) && s'.queueLock == Some(a)
    ensures s'.procs[a].pc == Dequeue(locked) || s'.procs[a].pc == Unblock(locked)
    ensures Wanted(s'.procs[a]) < Wanted(s.procs[a]) && Wanted(s'.procs[a]) <= |Unread(s'.queues[a])|
  {
    s' := Goes(s, a, 0, true);
    CopyAct(s, a);
    LengthsAdd(s.procs[a].buf, Unread(s.queues[a]), s'.procs[a].buf, Unread(s'.queues[a]));
  }

  lemma LengthsAdd<T>(a: seq<T>, b: seq<T>, c: seq<T>, d: seq<T>)
    requires a + b == c + d
    ensures |a| + |b| == |c| + |d|
  {
    assert |a + b| == |a| + |b| && |c + d| == |c| + |d|;
  }

  lemma {:induction false} CopiesAll(s: State, a: nat, locked: bool) returns (s': State)
    requires Copying(s, a, locked)
    ensures Copying(s', a, locked) && Reaches(s, {a}, s') && |s'.procs| == |s.procs| && Copies(s, s', a) && Wanted(s'.procs[a]) == 0
    decreases Wanted(s.procs[a])
  {
    if Wanted(s.procs[a]) == 0 {
      s' := s;
      ReachNothing(s, {a});
    } else {
      var s1 := CopyStep(s, a, locked);
      s' := CopiesAll(s1, a, locked);
      ReachJoin(s, s1, s', {a});
    }
  }

  lemma EndsLoop(s: State, a: nat, locked: bool) returns (s': State)
    requires Inv(s) && a < |s.procs| && s.procs[a].pc == Dequeue(locked) && Wanted(s.procs[a]) == 0
    ensures Inv(s') && Reaches(s, {a}, s') && s' == At(s, a, ReleaseQueueLock(locked))
  {
    s' := Goes(s, a, 0, true);
  }

  lemma EndsFull(s: State, a: nat, locked: bool) returns (s': State)
    requires Inv(s) && a < |s.procs| && s.procs[a].pc == ReleaseQueueLock(locked) && |s.procs[a].buf| == s.procs[a].size
    ensures Inv(s') && Reaches(s, {a}, s') && s' == At(s, a, if locked then ReleasePipeLock else Idle).(queueLock := None)
  {
    s' := Goes(s, a, 0, true);
  }

  lemma EndsCall(s: State, a: nat) returns (s': State)
    requires Inv(s) && a < |s.procs| && s.procs[a].pc == ReleasePipeLock && |s.procs[a].buf| == s.procs[a].size
    ensures Inv(s') && Reaches(s, {a}, s') && s' == At(s, a, Idle).(pipeLock := None)
  {
    s' := Goes(s, a, 0, true);
  }

  lemma StopsCopying(s: State, a: nat, locked: bool) returns (s': State)
    requires Copying(s, a, locked) && Wanted(s.procs[a]) == 0
    ensures Reaches(s, {a}, s') && |s'.procs| == |s.procs| && s'.procs[a].pc == Idle && s'.procs[a].buf == s.procs[a].buf
  {
    assert ProcOk(s, a);
    var s1 := EndsLoop(s, a, locked);
    var s2 := EndsFull(s1, a, locked);
    ReachJoin(s, s1, s2, {a});
    s' := s2;
    if locked {
      s' := EndsCall(s2, a);
      ReachJoin(s, s2, s', {a});
    }
  }

  lemma TriesPipe(s: State, a: nat) returns (s': State, locked: bool)
    requires Inv(s) && a < |s.procs| && s.procs[a].pc == TestPipeLock
    ensures Inv(s') && Reaches(s, {a}, s') && |s'.procs| == |s.procs| && s'.procs[a] == s.procs[a].(pc := HasMessage(locked))
    ensures s'.queues == s.queues && s'.queueLock == s.queueLock
  {
    locked := s.pipeLock.None?;
    s' := Goes(s, a, 0, true);
  }

  lemma CopiesRequest(s: State, a: nat, locked: bool) returns (s': State)
    requires Inv(s) && a < |s.procs| && s.procs[a].pc == HasMessage(locked) && s.queueLock.None?
    requires Wanted(s.procs[a]) <= |Unread(s.queues[a])|
    ensures Reaches(s, {a}, s') && |s'.procs| == |s.procs| && Copying(s', a, locked) && Copies(s, s', a) && Wanted(s'.procs[a]) == 0
  {
    assert ProcOk(s, a);
    var s1 := StartsCopying(s, a, locked);
    s' := CopiesAll(s1, a, locked);
    ReachJoin(s, s1, s', {a});
  }

  lemma CopiesFromQueue(s: State, a: nat, locked: bool) returns (s': State)
    requires Inv(s) && a < |s.procs| && s.procs[a].pc == HasMessage(locked) && s.queueLock.None?
    requires Wanted(s.procs[a]) <= |Unread(s.queues[a])|
    ensures Reaches(s, {a}, s') && |s'.procs| == |s.procs| && s'.procs[a].pc == Idle
    ensures s'.procs[a].buf == s.procs[a].buf + Unread(s.queues[a])[..Wanted(s.procs[a])]
  {
    var s1 := CopiesRequest(s, a, locked);
    assert ProcOk(s, a) && ProcOk(s1, a);
    s' := StopsCopying(s1, a, locked);
    Prefix(s.procs[a].buf, Unread(s.queues[a]), s1.procs[a].buf, Unread(s1.queues[a]));
    ReachJoin(s, s1, s', {a});
  }

  lemma Prefix<T>(a: seq<T>, b: seq<T>, c: seq<T>, d: seq<T>)
    requires a + b == c + d && |a| <= |c|
    ensures |c| - |a| <= |b| && c == a + b[..|c| - |a|]
  {
    LengthsAdd(a, b, c, d);
    assert c == (c + d)[..|c|] == (a + b)[..|c|];
  }

  /** A reader does not depend on the pipe for bytes that somebody has queued for it: in every
      reachable state in which its queue holds enough, whoever holds the pipe, a reader that
      loops for the pipe can return with exactly the first of those bytes, and nobody else
      takes a step, if the queue lock is free. */
  lemma QueuedBytesAreRead(tr: seq<State>, run: seq<Event>, i: nat, a: nat) returns (es: seq<Event>, s': State)
    requires Run(tr, run) && i < |tr| && Shape(tr[i]) && a < |tr[i].procs| && tr[i].queueLock.None?
    requires tr[i].procs[a].pc == HasMessage(false) || tr[i].procs[a].pc == TestPipeLock
    requires Wanted(tr[i].procs[a]) <= |Unread(tr[i].queues[a])|
    ensures Via(tr[i], es, {a}, s') && |s'.procs| == |tr[i].procs| && s'.procs[a].pc == Idle
    ensures s'.procs[a].buf == tr[i].procs[a].buf + Unread(tr[i].queues[a])[..Wanted(tr[i].procs[a])]
  {
    RunInv(tr, run, i);
    if tr[i].procs[a].pc == TestPipeLock {
      var s1, locked := TriesPipe(tr[i], a);
      s' := CopiesFromQueue(s1, a, locked);
      ReachJoin(tr[i], s1, s', {a});
    } else {
      s' := CopiesFromQueue(tr[i], a, false);
    }
    es :| Via(tr[i], es, {a}, s');
  }

  /** Without a mark or a stash in the way: in every reachable state with the pipe and the
      queues free, a polling reader can return exactly the next bytes sent to it, on its own,
      wherever they stand in the pipe. */
  lemma NextBytesAreRead(tr: seq<State>, run: seq<Event>, i: nat, b: nat) returns (es: seq<Event>, s': State)
    requires Run(tr, run) && i < |tr| && Polls(tr[i], b) && tr[i].pipeLock.None? && tr[i].queueLock.None?
    requires !tr[i].heapBlocked && (tr[i].stash.Some? ==> tr[i].stash.value.target != b)
    requires Wanted(tr[i].procs[b]) <= |PayloadFor(tr[i].frames, b)|
    ensures Via(tr[i], es, {b}, s') && |s'.procs| == |tr[i].procs| && s'.procs[b].pc == Idle
    ensures s'.procs[b].buf == tr[i].procs[b].buf + PayloadFor(tr[i].frames, b)[..Wanted(tr[i].procs[b])]
  {
    RunInv(tr, run, i);
    s' := ReadsPastStash(tr[i], b);
    es :| Via(tr[i], es, {b}, s');
  }

  // ------------------------------------------------------------------------- sending

  lemma SendsOne(s: State, f: Frame) returns (s': State)
    requires Inv(s) && s.pending == [] && GoodFrame(f) && f.target < |s.procs|
    ensures Inv(s') && Reaches(s, {}, s') && s'.pending == [] && |s'.procs| == |s.procs|
    ensures s'.frames == s.frames + [f] && s'.pipe == s.pipe + Encode(f)
  {
    var e := CallWrite(f);
    ReachOne(s, e, {});
    StepInv(s, e);
    var s1 := After(s, e);
    s' := Flush(s1, {});
    ReachJoin(s, s1, s', {});
    assert [] + Encode(f) == Encode(f);
  }

  /** Any frames can be sent one after the other, whether anybody reads or not. */
  lemma {:induction false} AnyFramesCanBeSent(s: State, fs: seq<Frame>) returns (s': State)
    requires Inv(s) && s.pending == [] && GoodFrames(fs) && forall i :: 0 <= i < |fs| ==> fs[i].target < |s.procs|
    ensures Inv(s') && Reaches(s, {}, s') && s'.pending == [] && s'.frames == s.frames + fs && s'.pipe == s.pipe + EncodeAll(fs)
    decreases |fs|
  {
    if fs == [] {
      s' := s;
      ReachNothing(s, {});
      assert s.frames + [] == s.frames && s.pipe + [] == s.pipe;
    } else {
      assert GoodFrame(fs[0]);
      var s1 := SendsOne(s, fs[0]);
      s' := AnyFramesCanBeSent(s1, fs[1..]);
      ReachJoin(s, s1, s', {});
      Regroup(s.frames, [fs[0]], fs[1..]);
      assert [fs[0]] + fs[1..] == fs;
      Regroup(s.pipe, Encode(fs[0]), EncodeAll(fs[1..]));
    }
  }
}
