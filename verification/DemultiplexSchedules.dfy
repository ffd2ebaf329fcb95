/** Schedules of the machine of Demultiplex that make a reader fail the assert in
    get_polled_data (src/biter/biterc.c:458). */
module DemultiplexSchedules {
  import opened Collections
  import opened Bytes
  import opened Demultiplex
  import opened DemultiplexSafety
  import opened DemultiplexAbort
  import opened DemultiplexRuns

  // With the mark set and no stash, the check aborts.
  lemma CheckAborts(s: State, b: nat) returns (s': State)
    requires Shape(s) && b < |s.procs| && s.procs[b].pc == CheckBlocked && s.heapBlocked && s.stash.None?
    ensures Reaches(s, {b}, s') && |s'.procs| == |s.procs| && s'.procs[b].pc == Aborted
  {
    var s1 := ChecksMark(s, b);
    s' := ChecksStash(s1, b);
    ReachJoin(s, s1, s', {b});
  }

  /** Every state with a stale mark and a polling reader leads to a failed assert; nobody else
      has to do anything. */
  lemma StaleThenAbort(s: State, b: nat) returns (s': State)
    requires Stale(s) && Polls(s, b)
    ensures Reaches(s, {b}, s') && |s'.procs| == |s.procs| && s'.procs[b].pc == Aborted
  {
    var s1 := GrabPipe(s, b);
    s' := CheckAborts(s1, b);
    ReachJoin(s, s1, s', {b});
  }

  // ------------------------------------------------------------- filling a request

  // Reader a has the pipe and no stash, with the heap marked blocked.
  ghost predicate Alone(s: State, a: nat)
  {
    HasPipe(s, a) && s.heapBlocked && s.stash.None?
  }

  // Nothing happens to the other readers, nor to the queues.
  predicate OthersSame(s: State, s': State, a: nat)
  {
    && |s'.procs| == |s.procs| && (forall x: nat :: x < |s.procs| && x != a ==> s'.procs[x] == s.procs[x])
    && s'.queues == s.queues
  }

  // Reader a reads a whole frame of its own that its request has room for.
  lemma ReadsWhole(s: State, a: nat) returns (s': State)
    requires Alone(s, a) && s.procs[a].pc == GotHeader
    requires s.procs[a].header.target == a && s.procs[a].header.size <= Wanted(s.procs[a])
    ensures Reaches(s, {a}, s') && Alone(s', a) && OthersSame(s, s', a) && s'.frames == s.frames
    ensures s'.procs[a].pc == LoopPc(s'.procs[a]) && Wanted(s'.procs[a]) == Wanted(s.procs[a]) - s.procs[a].header.size
  {
    assert ProcOk(s, a);
    s' := ReadsOwn(s, a);
  }

  // Reader a reads its next frame from the pipe.
  lemma ReadsNext(s: State, a: nat) returns (s': State)
    requires Alone(s, a) && s.procs[a].pc == NextFrame
    requires s.frames != [] && s.frames[0].target == a && |s.frames[0].data| <= Wanted(s.procs[a])
    ensures Reaches(s, {a}, s') && Alone(s', a) && OthersSame(s, s', a) && s'.frames == s.frames[1..]
    ensures s'.procs[a].pc == LoopPc(s'.procs[a]) && Wanted(s'.procs[a]) == Wanted(s.procs[a]) - |s.frames[0].data|
  {
    var s1 := GetsFrame(s, a);
    s' := ReadsWhole(s1, a);
    ReachJoin(s, s1, s', {a});
  }

  // With nothing in transit, somebody writes one byte to reader a.
  lemma WriteOne(s: State, a: nat) returns (s': State)
    requires Alone(s, a) && s.procs[a].pc == NextFrame && s.frames == [] && a < TWO_32
    ensures Reaches(s, {a}, s') && Alone(s', a) && OthersSame(s, s', a)
    ensures s'.procs[a] == s.procs[a] && s'.frames == [Frame(a, [0])]
  {
    assert ProcOk(s, a);
    assert |s.pipe + s.pending| == 0;
    var e := CallWrite(Frame(a, [0]));
    ReachOne(s, e, {a});
    StepInv(s, e);
    s' := After(s, e);
  }

  lemma LetGo(s: State, a: nat) returns (s': State)
    requires Alone(s, a) && s.procs[a].pc == ReleasePipeLock
    ensures Reaches(s, {a}, s') && Stale(s') && OthersSame(s, s', a) && Shape(s')
  {
    s' := Goes(s, a, 0, true);
  }

  // With the next frame in transit, one written for the purpose if there is none, reader a
  // reads it.
  lemma ReadOneMore(s: State, a: nat) returns (s': State)
    requires Alone(s, a) && |s.procs| <= TWO_32 && s.procs[a].pc == NextFrame
    requires 0 < Wanted(s.procs[a]) && !Spared(a, Wanted(s.procs[a]), s.frames, false)
    ensures Reaches(s, {a}, s') && Alone(s', a) && OthersSame(s, s', a) && Wanted(s'.procs[a]) < Wanted(s.procs[a])
    ensures s'.procs[a].pc == LoopPc(s'.procs[a]) && !Spared(a, Wanted(s'.procs[a]), s'.frames, false)
  {
    if s.frames == [] {
      var s1 := WriteOne(s, a);
      s' := ReadsNext(s1, a);
      ReachJoin(s, s1, s', {a});
    } else {
      assert GoodFrame(s.frames[0]);
      s' := ReadsNext(s, a);
    }
  }

  // Reader a goes on until its request is full, and lets go of the pipe.
  lemma {:induction false} FillUp(s: State, a: nat) returns (s': State)
    requires Alone(s, a) && |s.procs| <= TWO_32 && s.procs[a].pc == LoopPc(s.procs[a])
    requires !Spared(a, Wanted(s.procs[a]), s.frames, false)
    ensures Reaches(s, {a}, s') && Stale(s') && OthersSame(s, s', a) && Shape(s')
    decreases Wanted(s.procs[a])
  {
    if Wanted(s.procs[a]) == 0 {
      s' := LetGo(s, a);
    } else {
      var s1 := ReadOneMore(s, a);
      s' := FillUp(s1, a);
      ReachJoin(s, s1, s', {a});
    }
  }

  lemma PickUp(s: State, a: nat) returns (s': State)
    requires Inv(s) && Swallows(s, Step(a, 0, true))
    ensures Reaches(s, {a}, s') && Alone(s', a) && OthersSame(s, s', a) && s'.frames == s.frames
    ensures s'.procs[a] == s.procs[a].(pc := GotHeader, header := s.stash.value)
  {
    assert ProcOk(s, a);
    s' := Goes(s, a, 0, true);
  }

  /** Whenever a reader may take a stashed frame, with the heap marked blocked, and nothing
      in transit keeps its request from being filled exactly, the mark can go stale. */
  lemma SwallowToStale(s: State, a: nat) returns (s': State)
    requires Inv(s) && |s.procs| <= TWO_32 && Swallows(s, Step(a, 0, true)) && s.stash.value.target == a
    ensures Reaches(s, {a}, s') && Stale(s') && OthersSame(s, s', a) && Shape(s')
  {
    var s1 := PickUp(s, a);
    var s2 := ReadsWhole(s1, a);
    s' := FillUp(s2, a);
    ReachJoin(s, s1, s2, {a});
    ReachJoin(s, s2, s', {a});
  }

  lemma StrandsOther(s: State, a: nat, b: nat) returns (s': State)
    requires Inv(s) && a != b && Polls(s, b) && |s.procs| <= TWO_32
    requires Swallows(s, Step(a, 0, true)) && s.stash.value.target == a
    ensures Reaches(s, {a, b}, s') && |s'.procs| == |s.procs| && s'.procs[b].pc == Aborted
  {
    var s1 := SwallowToStale(s, a);
    s' := StaleThenAbort(s1, b);
    ReachMore(s, s1, {a}, {a, b});
    ReachMore(s1, s', {b}, {a, b});
    ReachJoin(s, s1, s', {a, b});
  }

  /** The other half of NeverAborts: from every reachable state in which a reader may so take
      a stashed frame while another one polls, there is a schedule in which that other reader
      fails the assert. */
  lemma SwallowThenAbort(tr: seq<State>, run: seq<Event>, i: nat, a: nat, b: nat) returns (es: seq<Event>, s': State)
    requires Run(tr, run) && i < |tr| && |tr[i].procs| <= TWO_32 && a != b && Polls(tr[i], b)
    requires Swallows(tr[i], Step(a, 0, true))
    ensures Leads(tr[i], es, s') && |s'.procs| == |tr[i].procs| && s'.procs[b].pc == Aborted
  {
    RunInv(tr, run, i);
    RunMine(tr, run, i);
    assert ProcOk(tr[i], a);
    s' := StrandsOther(tr[i], a, b);
    es :| Via(tr[i], es, {a, b}, s');
  }

  // ------------------------------------------------------------------- it does happen

  // Process b, alone with the pipe, reads the header of a frame for somebody else.
  lemma MeetsForeign(s: State, b: nat) returns (s': State)
    requires HasPipe(s, b) && s.procs[b].pc == CheckBlocked && !s.heapBlocked && s.stash.None?
    requires s.frames != [] && s.frames[0].target != b
    ensures HasPipe(s', b) && Reaches(s, {b}, s') && OthersSame(s, s', b) && s'.frames == s.frames[1..]
    ensures s'.procs[b].pc == Allocate && s'.procs[b].header == HeaderOf(s.frames[0])
    ensures s'.procs[b].buf == s.procs[b].buf && s'.procs[b].size == s.procs[b].size
  {
    var s1 := ChecksMark(s, b);
    var s2 := GetsFrame(s1, b);
    s' := SeesForeign(s2, b);
    ReachJoin(s, s1, s2, {b});
    ReachJoin(s, s2, s', {b});
  }

  lemma NoRoom(s: State, b: nat) returns (s': State)
    requires HasPipe(s, b) && s.procs[b].pc == Allocate
    ensures HasPipe(s', b) && Reaches(s, {b}, s') && s' == At(s, b, SetBlocked).(stash := Some(s.procs[b].header))
  {
    var s1 := Goes(s, b, 0, false);
    assert s1 == At(s, b, SetStash);
    s' := Goes(s1, b, 0, true);
    ReachJoin(s, s1, s', {b});
  }

  lemma Marks(s: State, b: nat) returns (s': State)
    requires HasPipe(s, b) && s.procs[b].pc == SetBlocked
    ensures HasPipe(s', b) && Reaches(s, {b}, s') && s' == At(s, b, ReleasePipeLock).(heapBlocked := true)
  {
    s' := Goes(s, b, 0, true);
  }

  lemma LeavesPipe(s: State, b: nat) returns (s': State)
    requires HasPipe(s, b) && s.procs[b].pc == ReleasePipeLock && |s.procs[b].buf| < s.procs[b].size
    ensures Inv(s') && Reaches(s, {b}, s') && s' == At(s, b, HasMessage(false)).(pipeLock := None)
  {
    s' := Goes(s, b, 0, true);
  }

  lemma MarkBlocked(s: State, b: nat) returns (s': State)
    requires HasPipe(s, b) && s.procs[b].pc == SetBlocked && |s.procs[b].buf| < s.procs[b].size
    ensures Inv(s') && Reaches(s, {b}, s') && s' == At(s, b, HasMessage(false)).(pipeLock := None, heapBlocked := true)
  {
    var s1 := Marks(s, b);
    s' := LeavesPipe(s1, b);
    ReachJoin(s, s1, s', {b});
  }

  // Finding the heap full, it stashes the header and lets go.
  lemma StashForOther(s: State, b: nat) returns (s': State)
    requires Inv(s) && Polls(s, b) && s.pipeLock.None? && !s.heapBlocked && s.stash.None?
    requires s.frames != [] && s.frames[0].target != b
    ensures Inv(s') && Reaches(s, {b}, s') && OthersSame(s, s', b) && s'.frames == s.frames[1..] && Polls(s', b)
    ensures s'.pipeLock.None? && s'.heapBlocked && s'.stash == Some(HeaderOf(s.frames[0]))
  {
    assert ProcOk(s, b);
    var s1 := GrabPipe(s, b);
    var s2 := MeetsForeign(s1, b);
    s' := HeapIsFull(s2, b);
    ReachJoin(s, s1, s2, {b});
    ReachJoin(s, s2, s', {b});
  }

  lemma HeapIsFull(s: State, b: nat) returns (s': State)
    requires HasPipe(s, b) && s.procs[b].pc == Allocate && |s.procs[b].buf| < s.procs[b].size
    ensures Inv(s') && Reaches(s, {b}, s')
    ensures s' == At(s, b, HasMessage(false)).(pipeLock := None, heapBlocked := true, stash := Some(s.procs[b].header))
  {
    var s1 := NoRoom(s, b);
    s' := MarkBlocked(s1, b);
    ReachJoin(s, s1, s', {b});
  }

  lemma Asks(s: State, b: nat, size: nat) returns (s': State)
    requires Inv(s) && b < |s.procs| && s.procs[b].pc == Idle && s.queues[b] == [] && size > 0
    ensures Inv(s') && Reaches(s, {b}, s') && Polls(s', b) && OthersSame(s, s', b) && Wanted(s'.procs[b]) == size
    ensures s'.pipeLock == s.pipeLock && s'.heapBlocked == s.heapBlocked && s'.stash == s.stash && s'.frames == s.frames
  {
    var e := CallRead(b, size);
    ReachOne(s, e, {b});
    StepInv(s, e);
    s' := After(s, e);
  }

  // The target of the stashed frame gets as far as taking it.
  lemma ComesForStash(s: State, a: nat) returns (s': State)
    requires Inv(s) && Polls(s, a) && s.pipeLock.None? && s.heapBlocked && s.stash.Some? && s.stash.value.target == a
    ensures Inv(s') && Reaches(s, {a}, s') && s' == At(s, a, NextFrame).(pipeLock := Some(a))
  {
    var s1 := GrabPipe(s, a);
    var s2 := ChecksMark(s1, a);
    s' := ChecksStash(s2, a);
    ReachJoin(s, s1, s2, {a});
    ReachJoin(s, s2, s', {a});
  }

  /** It happens: with two readers and one one-byte message for reader 0, reader 1 meets
      the frame first and finds the heap full, reader 0 takes it from the stash, and
      reader 1 aborts. */
  lemma AbortHappens(start: State) returns (es: seq<Event>, s': State)
    requires Init(start) && |start.procs| == 2
    ensures Leads(start, es, s') && |s'.procs| == 2 && s'.procs[1].pc == Aborted
  {
    var s1 := FrameIsStashed(start);
    var s2 := TargetArrives(s1);
    var s3 := StrandsOther(s2, 0, 1);
    ReachJoin(start, s1, s2, {0, 1});
    ReachJoin(start, s2, s3, {0, 1});
    s' := s3;
    es :| Via(start, es, {0, 1}, s');
  }

  lemma FrameIsStashed(start: State) returns (s': State)
    requires Init(start) && |start.procs| == 2
    ensures Inv(s') && Reaches(start, {0, 1}, s') && |s'.procs| == 2 && Polls(s', 1)
    ensures s'.procs[0].pc == Idle && s'.queues[0] == [] && s'.pipeLock.None?
    ensures s'.heapBlocked && s'.stash == Some(Header(1, 0)) && s'.frames == []
  {
    var e := CallWrite(Frame(0, [7]));
    InitInv(start);
    ReachOne(start, e, {0, 1});
    StepInv(start, e);
    var s1 := After(start, e);
    var s2 := Asks(s1, 1, 1);
    s' := StashForOther(s2, 1);
    ReachMore(s1, s2, {1}, {0, 1});
    ReachMore(s2, s', {1}, {0, 1});
    ReachJoin(start, s1, s2, {0, 1});
    ReachJoin(start, s2, s', {0, 1});
  }

  lemma TargetArrives(s: State) returns (s': State)
    requires Inv(s) && |s.procs| == 2 && Polls(s, 1) && s.procs[0].pc == Idle && s.queues[0] == [] && s.pipeLock.None?
    requires s.heapBlocked && s.stash == Some(Header(1, 0)) && s.frames == []
    ensures Inv(s') && Reaches(s, {0, 1}, s') && Polls(s', 1) && |s'.procs| == 2
    ensures Swallows(s', Step(0, 0, true)) && s'.stash.value.target == 0
  {
    var s1 := Asks(s, 0, 1);
    s' := ComesForStash(s1, 0);
    ReachMore(s, s1, {0}, {0, 1});
    ReachMore(s1, s', {0}, {0, 1});
    ReachJoin(s, s1, s', {0, 1});
  }
}
