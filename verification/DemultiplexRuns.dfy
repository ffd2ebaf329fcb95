/** Schedules of the machine of Demultiplex: what can be made to happen from a state, by steps
    of given processes and by the writers. */
module DemultiplexRuns {
  import opened Collections
  import opened Bytes
  import opened Demultiplex
  import opened DemultiplexSafety

  // The events es take s to s'.
  ghost predicate Leads(s: State, es: seq<Event>, s': State)
    decreases |es|
  {
    if es == [] then s' == s
    else Possible(s, es[0]) && Leads(After(s, es[0]), es[1..], s')
  }

  lemma {:induction false} LeadsJoin(s: State, es: seq<Event>, t: State, fs: seq<Event>, u: State)
    requires Leads(s, es, t) && Leads(t, fs, u)
    ensures Leads(s, es + fs, u)
    decreases |es|
  {
    if es == [] {
      assert es + fs == fs;
    } else {
      assert (es + fs)[0] == es[0] && (es + fs)[1..] == es[1..] + fs;
      LeadsJoin(After(s, es[0]), es[1..], t, fs, u);
    }
  }

  // A writer goes on, or one of these processes does.
  predicate By(e: Event, who: set<nat>)
  {
    match e
    case CallRead(a, _) => a in who
    case Step(a, _, _) => a in who
    case _ => true
  }

  ghost predicate Via(s: State, es: seq<Event>, who: set<nat>, s': State)
  {
    Leads(s, es, s') && forall i :: 0 <= i < |es| ==> By(es[i], who)
  }

  // A schedule in which no process but these does anything.
  ghost predicate Reaches(s: State, who: set<nat>, s': State)
  {
    exists es :: Via(s, es, who, s')
  }

  lemma ReachNothing(s: State, who: set<nat>)
    ensures Reaches(s, who, s)
  {
    assert Via(s, [], who, s);
  }

  lemma ReachOne(s: State, e: Event, who: set<nat>)
    requires Possible(s, e) && By(e, who)
    ensures Reaches(s, who, After(s, e))
  {
    assert [e][1..] == [];
    assert Via(s, [e], who, After(s, e));
  }

  lemma ReachJoin(s: State, t: State, u: State, who: set<nat>)
    requires Reaches(s, who, t) && Reaches(t, who, u)
    ensures Reaches(s, who, u)
  {
    var es :| Via(s, es, who, t);
    var fs :| Via(t, fs, who, u);
    LeadsJoin(s, es, t, fs, u);
    assert Via(s, es + fs, who, u);
  }

  lemma ReachMore(s: State, s': State, who: set<nat>, more: set<nat>)
    requires Reaches(s, who, s') && who <= more
    ensures Reaches(s, more, s')
  {
    var es :| Via(s, es, who, s');
    assert Via(s, es, more, s');
  }

  // Process b takes one step.
  lemma Goes(s: State, b: nat, k: nat, ok: bool) returns (s': State)
    requires Shape(s) && b < |s.procs| && Enabled(s, b, k)
    ensures s' == Act(s, b, k, ok) && Reaches(s, {b}, s') && (Inv(s) ==> Inv(s'))
  {
    var e := Step(b, k, ok);
    s' := After(s, e);
    if Inv(s) {
      StepInv(s, e);
    }
    ReachOne(s, e, {b});
  }

  // The writer writes what it still has to write.
  lemma Flush(s: State, who: set<nat>) returns (s': State)
    requires Inv(s)
    ensures Inv(s') && Reaches(s, who, s') && s' == s.(pipe := s.pipe + s.pending, pending := [])
  {
    if s.pending == [] {
      assert s.pipe + [] == s.pipe;
      s' := s;
      ReachNothing(s, who);
    } else {
      var e := Put(|s.pending|);
      s' := After(s, e);
      StepInv(s, e);
      ReachOne(s, e, who);
      assert s.pending[..|s.pending|] == s.pending;
    }
  }

  // ---------------------------------------------------------------- the way to the pipe

  // Process b loops for its bytes, and its queue is empty.
  predicate Polls(s: State, b: nat)
  {
    Shape(s) && b < |s.procs| && s.procs[b].pc == HasMessage(false) && s.queues[b] == []
  }

  // The state with process b at another point.
  function At(s: State, b: nat, pc: Pc): State
    requires b < |s.procs|
  {
    SetProc(s, b, s.procs[b].(pc := pc))
  }

  lemma SeesNothing(s: State, b: nat) returns (s': State)
    requires Shape(s) && b < |s.procs| && s.procs[b].pc.HasMessage? && s.queues[b] == []
    ensures s' == At(s, b, if s.procs[b].pc.locked then CheckBlocked else TestPipeLock)
    ensures Shape(s') && Reaches(s, {b}, s') && (Inv(s) ==> Inv(s'))
  {
    s' := Goes(s, b, 0, true);
  }

  lemma TakesPipe(s: State, b: nat) returns (s': State)
    requires Shape(s) && b < |s.procs| && s.procs[b].pc == TestPipeLock && s.pipeLock.None?
    ensures s' == At(s, b, HasMessage(true)).(pipeLock := Some(b))
    ensures Shape(s') && Reaches(s, {b}, s') && (Inv(s) ==> Inv(s'))
  {
    s' := Goes(s, b, 0, true);
  }

  // Process b gets as far as the look at the heap mark.
  lemma GrabPipe(s: State, b: nat) returns (s': State)
    requires Polls(s, b) && s.pipeLock.None?
    ensures s' == At(s, b, CheckBlocked).(pipeLock := Some(b))
    ensures Shape(s') && Reaches(s, {b}, s') && (Inv(s) ==> Inv(s'))
  {
    var s1 := SeesNothing(s, b);
    var s2 := TakesPipe(s1, b);
    s' := SeesNothing(s2, b);
    ReachJoin(s, s1, s2, {b});
    ReachJoin(s, s2, s', {b});
  }

  lemma ChecksMark(s: State, b: nat) returns (s': State)
    requires Shape(s) && b < |s.procs| && s.procs[b].pc == CheckBlocked
    ensures s' == At(s, b, if s.heapBlocked then CheckStash else NextFrame)
    ensures Shape(s') && Reaches(s, {b}, s') && (Inv(s) ==> Inv(s'))
  {
    s' := Goes(s, b, 0, true);
  }

  lemma ChecksStash(s: State, b: nat) returns (s': State)
    requires Shape(s) && b < |s.procs| && s.procs[b].pc == CheckStash
    ensures s' == At(s, b, if s.stash.None? then Aborted else if s.stash.value.target != b then ReleasePipeLock else NextFrame)
    ensures Shape(s') && Reaches(s, {b}, s') && (Inv(s) ==> Inv(s'))
  {
    s' := Goes(s, b, 0, true);
  }

  // ------------------------------------------------------------------- reading a frame

  ghost predicate HasPipe(s: State, b: nat)
  {
    Inv(s) && b < |s.procs| && s.pipeLock == Some(b)
  }

  lemma StartsFrame(s: State, b: nat) returns (s': State)
    requires HasPipe(s, b) && s.procs[b].pc == NextFrame && s.stash.None?
    ensures Inv(s') && Reaches(s, {b}, s') && s' == SetProc(s, b, s.procs[b].(pc := ReadHeader, headerBytes := []))
  {
    s' := Goes(s, b, 0, true);
  }

  lemma HeaderIsThere(s: State, b: nat)
    requires HasPipe(s, b) && s.procs[b].pc == ReadHeader && s.procs[b].headerBytes == [] && s.pending == [] && s.frames != []
    ensures HEADER_SIZE <= |s.pipe|
  {
    assert ProcOk(s, b);
    assert GoodFrame(s.frames[0]);
    assert [] + s.pipe + [] == s.pipe;
    assert |EncodeAll(s.frames)| >= HEADER_SIZE;
  }

  function HeaderOf(f: Frame): Header
  {
    Header(|f.data|, f.target)
  }

  lemma EndsHeader(s: State, b: nat) returns (s': State)
    requires HasPipe(s, b) && s.procs[b].pc == ReadHeader && s.procs[b].headerBytes == [] && s.pending == [] && s.frames != []
    ensures Inv(s') && Reaches(s, {b}, s') && HEADER_SIZE <= |s.pipe|
    ensures s' == SetProc(s, b, s.procs[b].(pc := GotHeader, header := HeaderOf(s.frames[0]))).(
      pipe := s.pipe[HEADER_SIZE..], cur := Some(s.frames[0]), frames := s.frames[1..])
  {
    HeaderIsThere(s, b);
    assert ProcOk(s, b);
    TakeHeaderStream(s, b, HEADER_SIZE);
    s' := Goes(s, b, HEADER_SIZE, true);
    assert s' == TakeHeader(s, b, HEADER_SIZE);
  }

  // Everything but the record of b, the pipe and the frame in transit is as it was.
  predicate OnlyReads(s: State, s': State, b: nat)
  {
    && |s'.procs| == |s.procs| && (forall x: nat :: x < |s.procs| && x != b ==> s'.procs[x] == s.procs[x])
    && s'.queues == s.queues && s'.pipeLock == s.pipeLock && s'.queueLock == s.queueLock
    && s'.stash == s.stash && s'.heapBlocked == s.heapBlocked
  }

  // Process b reads the header of the next frame.
  lemma GetsFrame(s: State, b: nat) returns (s': State)
    requires HasPipe(s, b) && s.procs[b].pc == NextFrame && s.stash.None? && s.frames != []
    ensures HasPipe(s', b) && Reaches(s, {b}, s') && OnlyReads(s, s', b)
    ensures s'.cur == Some(s.frames[0]) && s'.frames == s.frames[1..]
    ensures s'.procs[b] == s.procs[b].(pc := GotHeader, headerBytes := [], header := HeaderOf(s.frames[0]))
  {
    var s1 := StartsFrame(s, b);
    var s2 := Flush(s1, {b});
    s' := EndsHeader(s2, b);
    ReachJoin(s, s1, s2, {b});
    ReachJoin(s, s2, s', {b});
  }

  // The frame in hand is for somebody else.
  lemma SeesForeign(s: State, b: nat) returns (s': State)
    requires HasPipe(s, b) && s.procs[b].pc == GotHeader && s.procs[b].header.target != b
    ensures Inv(s') && Reaches(s, {b}, s') && s' == At(s, b, Allocate)
  {
    assert ProcOk(s, b);
    s' := Goes(s, b, 0, true);
  }

  // How much of a frame of its own process b reads into its buffer.
  function Share(p: Process): nat
  {
    if p.header.size > Wanted(p) then Wanted(p) else p.header.size
  }

  lemma StartsOwn(s: State, b: nat) returns (s': State)
    requires HasPipe(s, b) && s.procs[b].pc == GotHeader && s.procs[b].header.target == b
    ensures Inv(s') && Reaches(s, {b}, s') && s' == At(s, b, ReadOwn(Share(s.procs[b])))
  {
    s' := Goes(s, b, 0, true);
  }

  lemma OwnIsThere(s: State, b: nat)
    requires HasPipe(s, b) && s.procs[b].pc.ReadOwn? && s.pending == []
    ensures var rem := s.procs[b].pc.rem;
      && s.cur.Some? && 0 < rem <= |s.cur.value.data| && rem <= |s.pipe| && rem <= s.procs[b].header.size
      && s.pipe[..rem] == s.cur.value.data[..rem]
  {
    assert ProcOk(s, b);
    assert [] + s.pipe + [] == s.pipe;
    PayloadInStream(s, s.procs[b].pc.rem);
  }

  lemma EndsOwn(s: State, b: nat) returns (s': State)
    requires HasPipe(s, b) && s.procs[b].pc.ReadOwn? && s.pending == []
    ensures HasPipe(s', b) && Reaches(s, {b}, s') && OnlyReads(s, s', b) && s'.frames == s.frames
    ensures s.cur.Some? && s.procs[b].pc.rem <= |s.cur.value.data| && s.procs[b].pc.rem <= s.procs[b].header.size
    ensures var p, p', rem := s.procs[b], s'.procs[b], s.procs[b].pc.rem;
      && p'.buf == p.buf + s.cur.value.data[..rem] && p'.size == p.size
      && p'.pc == if p.header.size > rem then Allocate else LoopPc(p')
  {
    OwnIsThere(s, b);
    s' := Goes(s, b, s.procs[b].pc.rem, true);
    assert s' == TakeOwn(s, b, s.procs[b].pc.rem);
  }

  // Process b reads its share of a frame of its own.
  lemma ReadsOwn(s: State, b: nat) returns (s': State)
    requires HasPipe(s, b) && s.procs[b].pc == GotHeader && s.procs[b].header.target == b
    ensures HasPipe(s', b) && Reaches(s, {b}, s') && OnlyReads(s, s', b) && s'.frames == s.frames
    ensures s.cur.Some? && Share(s.procs[b]) <= |s.cur.value.data|
    ensures var p, p' := s.procs[b], s'.procs[b];
      && p'.buf == p.buf + s.cur.value.data[..Share(p)] && p'.size == p.size
      && p'.pc == if p.header.size > Share(p) then Allocate else LoopPc(p')
  {
    var s1 := StartsOwn(s, b);
    var s2 := Flush(s1, {b});
    s' := EndsOwn(s2, b);
    ReachJoin(s, s1, s2, {b});
    ReachJoin(s, s2, s', {b});
  }
}
