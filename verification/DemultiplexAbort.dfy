/** When the assert in get_polled_data (src/biter/biterc.c:458) can fail.  The check at
    src/biter/demultiplex.c:191-198 reads the stash whenever the heap is marked blocked.
    A target that takes a stashed frame clears the stash but not the mark.  If its own
    frames then fill its request exactly, before it meets a frame for somebody else or one
    that is too large, it returns and leaves the mark without a stash, and the next reader
    fails the assert.  In no other way does the assert fail. */
module DemultiplexAbort {
  import opened Collections
  import opened Bytes
  import opened Demultiplex
  import opened DemultiplexSafety

  // ------------------------------------------------ every failure has a stale mark before it

  // Nobody holds the pipe, the heap is marked blocked and there is no stash.
  predicate Stale(s: State)
  {
    s.pipeLock.None? && s.heapBlocked && s.stash.None?
  }

  // The lock holder up to the check, if the mark was not stale when it took the lock.
  predicate CheckOk(p: Process, stash: Option<Header>, blocked: bool)
  {
    match p.pc
    case HasMessage(_) => blocked ==> stash.Some?
    case TakeQueueLock(_) => blocked ==> stash.Some?
    case Dequeue(_) => blocked ==> stash.Some?
    case Unblock(_) => blocked ==> stash.Some?
    case ReleaseQueueLock(_) => blocked ==> stash.Some?
    case CheckBlocked => blocked ==> stash.Some?
    case CheckStash => stash.Some?
    case Aborted => false
    case _ => true
  }

  predicate Unfailed(s: State)
  {
    s.pipeLock.Some? && s.pipeLock.value < |s.procs| ==> CheckOk(s.procs[s.pipeLock.value], s.stash, s.heapBlocked)
  }

  lemma HolderActUnfailed(s: State, a: nat, ok: bool)
    requires Shape(s) && Unfailed(s) && a < |s.procs| && Enabled(s, a, 0) && s.pipeLock == Some(a)
    requires !IsQueuePc(s.procs[a].pc) && !IsTransferPc(s.procs[a].pc)
    ensures Unfailed(HolderAct(s, a, ok))
  {
  }

  lemma TransferActUnfailed(s: State, a: nat, k: nat)
    requires Shape(s) && a < |s.procs| && Enabled(s, a, k) && s.pipeLock == Some(a)
    requires IsTransferPc(s.procs[a].pc)
    ensures Unfailed(TransferAct(s, a, k))
  {
  }

  lemma QueueActUnfailed(s: State, a: nat)
    requires Shape(s) && Unfailed(s) && !Stale(s) && a < |s.procs| && ProcOk(s, a) && LocksOk(s)
    requires Enabled(s, a, 0) && IsQueuePc(s.procs[a].pc)
    ensures Unfailed(QueueAct(s, a))
  {
    QueueActUndisturbed(s, a);
    var s' := QueueAct(s, a);
    assert s'.stash == s.stash && (s'.heapBlocked ==> s.heapBlocked);
    if s.pipeLock.Some? && s.pipeLock.value != a {
      assert s'.pipeLock == s.pipeLock && s'.procs[s.pipeLock.value] == s.procs[s.pipeLock.value];
    }
  }

  lemma StepUnfailed(s: State, e: Event)
    requires Inv(s) && Unfailed(s) && !Stale(s) && Possible(s, e)
    ensures Unfailed(After(s, e))
  {
    if e.Step? {
      assert ProcOk(s, e.a);
      if IsQueuePc(s.procs[e.a].pc) {
        QueueActUnfailed(s, e.a);
      } else if IsTransferPc(s.procs[e.a].pc) {
        TransferActUnfailed(s, e.a, e.k);
      } else {
        HolderActUnfailed(s, e.a, e.ok);
      }
    } else if e.CallRead? {
      assert ProcOk(s, e.a);
    }
  }

  lemma {:induction false} RunUnfailed(tr: seq<State>, es: seq<Event>, i: nat)
    requires Run(tr, es) && i < |tr|
    requires forall j :: 0 <= j < i ==> !Stale(tr[j])
    ensures Unfailed(tr[i])
    decreases i
  {
    if i > 0 {
      RunInv(tr, es, i - 1);
      RunUnfailed(tr, es, i - 1);
      StepUnfailed(tr[i - 1], es[i - 1]);
    }
  }

  /** A process that has failed the assert did so after a state with a stale mark, in every
      interleaving. */
  lemma AbortNeedsStale(tr: seq<State>, es: seq<Event>, i: nat, a: nat)
    requires Run(tr, es) && i < |tr| && a < |tr[i].procs| && tr[i].procs[a].pc == Aborted
    ensures exists j :: 0 <= j < i && Stale(tr[j])
  {
    RunInv(tr, es, i);
    assert ProcOk(tr[i], a);
    if forall j :: 0 <= j < i ==> !Stale(tr[j]) {
      RunUnfailed(tr, es, i);
    }
  }

  // ---------------------------------------------------- how a mark becomes stale

  /** Reader a wants w more bytes and meets these frames in turn: before its own frames have
      filled the request exactly, one comes that is for somebody else or too large.  If the
      frames run out first, that counts when the list is closed, that is, when no more are
      to come. */
  predicate Spared(a: nat, w: nat, fs: seq<Frame>, closed: bool)
    decreases |fs|
  {
    w > 0 &&
    if fs == [] then closed
    else fs[0].target != a || |fs[0].data| > w || Spared(a, w - |fs[0].data|, fs[1..], closed)
  }

  /** The reader's own frames fill the request exactly. */
  predicate Fills(a: nat, w: nat, fs: seq<Frame>)
    decreases |fs|
  {
    w == 0 || (fs != [] && fs[0].target == a && |fs[0].data| <= w && Fills(a, w - |fs[0].data|, fs[1..]))
  }

  lemma {:induction false} FillsOrSpared(a: nat, w: nat, fs: seq<Frame>)
    ensures Fills(a, w, fs) <==> !Spared(a, w, fs, true)
    decreases |fs|
  {
    if w > 0 && fs != [] && |fs[0].data| <= w {
      FillsOrSpared(a, w - |fs[0].data|, fs[1..]);
    }
  }

  // One frame more does not change what an earlier one has settled.
  lemma {:induction false} SparedMore(a: nat, w: nat, fs: seq<Frame>, f: Frame)
    requires Spared(a, w, fs, false)
    ensures Spared(a, w, fs + [f], false)
    decreases |fs|
  {
    if fs[0].target == a && |fs[0].data| <= w {
      SparedMore(a, w - |fs[0].data|, fs[1..], f);
      assert (fs + [f])[1..] == fs[1..] + [f];
    }
  }

  // Room for a frame of this size, and not spared by the frames behind it.
  predicate Strands(a: nat, w: nat, size: nat, fs: seq<Frame>, closed: bool)
  {
    size <= w && !Spared(a, w - size, fs, closed)
  }

  /** The event takes a stashed header while the heap is marked blocked, and neither the
      stashed frame nor those in transit keep the request from being filled exactly. */
  predicate Swallows(s: State, e: Event)
  {
    && e.Step? && e.a < |s.procs| && s.procs[e.a].pc == NextFrame && s.heapBlocked && s.stash.Some?
    && Strands(e.a, Wanted(s.procs[e.a]), s.stash.value.size, s.frames, false)
  }

  // What a blocked heap says about the lock holder a, with frames fs ahead of it.
  predicate KeepsOk(a: nat, p: Process, stash: Option<Header>, blocked: bool, fs: seq<Frame>, closed: bool)
  {
    match p.pc
    case CheckStash => stash.Some?
    case Aborted => false
    case NextFrame => blocked ==> if stash.Some? then stash.value.target == a else Spared(a, Wanted(p), fs, closed)
    case ReadHeader => blocked ==> Spared(a, Wanted(p), fs, closed)
    case GotHeader => blocked ==> p.header.target != a || !Strands(a, Wanted(p), p.header.size, fs, closed)
    case ReadOwn(rem) => blocked ==> rem < p.header.size || !Strands(a, Wanted(p), p.header.size, fs, closed)
    case Allocate => true
    case SetStash => true
    case ClearBlocked => true
    case SetBlocked => true
    case Fill => !blocked
    case EnqueueLock => !blocked
    case Enqueue => !blocked
    case EnqueueUnlock => !blocked
    case _ => blocked ==> stash.Some?
  }

  lemma HolderActKeeps(s: State, a: nat, ok: bool, fs: seq<Frame>, closed: bool)
    requires Shape(s) && a < |s.procs| && ProcOk(s, a) && Enabled(s, a, 0) && s.pipeLock == Some(a)
    requires !IsQueuePc(s.procs[a].pc) && !IsTransferPc(s.procs[a].pc)
    requires KeepsOk(a, s.procs[a], s.stash, s.heapBlocked, fs, closed)
    requires s.procs[a].pc == NextFrame && s.heapBlocked && s.stash.Some? ==>
      !Strands(a, Wanted(s.procs[a]), s.stash.value.size, fs, closed)
    ensures var s' := HolderAct(s, a, ok);
      s'.pipeLock == Some(a) && |s'.procs| == |s.procs| && s'.frames == s.frames &&
      KeepsOk(a, s'.procs[a], s'.stash, s'.heapBlocked, fs, closed)
  {
  }

  lemma FirstOf<T>(a: seq<T>, b: seq<T>)
    requires a != []
    ensures (a + b)[0] == a[0] && (a + b)[1..] == a[1..] + b
  {
  }

  lemma HeaderKeeps(a: nat, p: Process, stash: Option<Header>, blocked: bool, fs: seq<Frame>, closed: bool, h: Header)
    requires p.pc == ReadHeader && KeepsOk(a, p, stash, blocked, fs, closed)
    requires fs != [] && h == Header(|fs[0].data|, fs[0].target)
    ensures KeepsOk(a, p.(pc := GotHeader, headerBytes := [], header := h), stash, blocked, fs[1..], closed)
  {
  }

  lemma TakeHeaderKeeps(s: State, a: nat, k: nat, later: seq<Frame>, closed: bool)
    requires Shape(s) && a < |s.procs| && s.pipeLock == Some(a) && s.cur.None? && FramesOk(s) && StreamOk(s)
    requires s.procs[a].pc == ReadHeader && Enabled(s, a, k)
    requires KeepsOk(a, s.procs[a], s.stash, s.heapBlocked, s.frames + later, closed)
    ensures var s' := TakeHeader(s, a, k);
      s'.pipeLock == Some(a) && |s'.procs| == |s.procs| &&
      KeepsOk(a, s'.procs[a], s'.stash, s'.heapBlocked, s'.frames + later, closed)
  {
    TakeHeaderStream(s, a, k);
    var p := s.procs[a];
    if |p.headerBytes| + k == HEADER_SIZE {
      FirstOf(s.frames, later);
      HeaderKeeps(a, p, s.stash, s.heapBlocked, s.frames + later, closed, DecodeHeader(p.headerBytes + s.pipe[..k]));
    }
  }

  lemma TakeOwnKeeps(s: State, a: nat, k: nat, fs: seq<Frame>, closed: bool)
    requires Shape(s) && a < |s.procs| && ProcOk(s, a) && Enabled(s, a, k) && s.pipeLock == Some(a) && s.procs[a].pc.ReadOwn?
    requires KeepsOk(a, s.procs[a], s.stash, s.heapBlocked, fs, closed)
    ensures var s' := TakeOwn(s, a, k);
      s'.pipeLock == Some(a) && |s'.procs| == |s.procs| && s'.frames == s.frames &&
      KeepsOk(a, s'.procs[a], s'.stash, s'.heapBlocked, fs, closed)
  {
  }

  lemma TransferActKeeps(s: State, a: nat, k: nat, later: seq<Frame>, closed: bool)
    requires Inv(s) && a < |s.procs| && Enabled(s, a, k) && s.pipeLock == Some(a) && IsTransferPc(s.procs[a].pc)
    requires KeepsOk(a, s.procs[a], s.stash, s.heapBlocked, s.frames + later, closed)
    ensures var s' := TransferAct(s, a, k);
      s'.pipeLock == Some(a) && |s'.procs| == |s.procs| &&
      KeepsOk(a, s'.procs[a], s'.stash, s'.heapBlocked, s'.frames + later, closed)
  {
    assert ProcOk(s, a);
    if s.procs[a].pc.ReadHeader? {
      TakeHeaderKeeps(s, a, k, later, closed);
    } else if s.procs[a].pc.ReadOwn? {
      TakeOwnKeeps(s, a, k, s.frames + later, closed);
    }
  }

  // Steps of anybody on queues and locks.
  lemma QueueActKeeps(s: State, b: nat, a: nat, fs: seq<Frame>, closed: bool)
    requires Shape(s) && b < |s.procs| && a < |s.procs| && ProcOk(s, b) && Enabled(s, b, 0) && IsQueuePc(s.procs[b].pc)
    requires s.pipeLock == Some(a) && ProcOk(s, a)
    requires KeepsOk(a, s.procs[a], s.stash, s.heapBlocked, fs, closed)
    ensures var s' := QueueAct(s, b);
      && |s'.procs| == |s.procs| && s'.frames == s.frames
      && (if s'.pipeLock == Some(a) then KeepsOk(a, s'.procs[a], s'.stash, s'.heapBlocked, fs, closed)
          else s'.pipeLock.None? && !Stale(s'))
  {
  }

  // The frames ahead before an event, if those ahead after it are the frames in transit
  // and some later ones.
  function Ahead(s: State, e: Event, later: seq<Frame>): seq<Frame>
  {
    s.frames + if e.CallWrite? then [e.f] + later else later
  }

  lemma StepKeeps(s: State, b: nat, k: nat, ok: bool, a: nat, later: seq<Frame>, closed: bool)
    requires Inv(s) && b < |s.procs| && Enabled(s, b, k) && a < |s.procs| && s.pipeLock == Some(a)
    requires KeepsOk(a, s.procs[a], s.stash, s.heapBlocked, s.frames + later, closed)
    requires s.procs[b].pc == NextFrame && s.heapBlocked && s.stash.Some? ==>
      !Strands(a, Wanted(s.procs[a]), s.stash.value.size, s.frames + later, closed)
    ensures var s' := Act(s, b, k, ok);
      && |s'.procs| == |s.procs|
      && (if s'.pipeLock == Some(a) then KeepsOk(a, s'.procs[a], s'.stash, s'.heapBlocked, s'.frames + later, closed)
          else s'.pipeLock.None? && !Stale(s'))
  {
    assert ProcOk(s, a) && ProcOk(s, b);
    if IsQueuePc(s.procs[b].pc) {
      QueueActKeeps(s, b, a, s.frames + later, closed);
    } else {
      assert b == a;
      if IsTransferPc(s.procs[a].pc) {
        TransferActKeeps(s, a, k, later, closed);
      } else {
        HolderActKeeps(s, a, ok, s.frames + later, closed);
      }
    }
  }

  // The holder's tenure, one event on.
  lemma Keeps(s: State, e: Event, a: nat, later: seq<Frame>, closed: bool)
    requires Inv(s) && Possible(s, e) && a < |s.procs| && s.pipeLock == Some(a)
    requires KeepsOk(a, s.procs[a], s.stash, s.heapBlocked, Ahead(s, e, later), closed)
    requires e.Step? && s.procs[e.a].pc == NextFrame && s.heapBlocked && s.stash.Some? ==>
      !Strands(a, Wanted(s.procs[a]), s.stash.value.size, Ahead(s, e, later), closed)
    ensures var s' := After(s, e);
      && |s'.procs| == |s.procs|
      && (if s'.pipeLock == Some(a) then KeepsOk(a, s'.procs[a], s'.stash, s'.heapBlocked, s'.frames + later, closed)
          else s'.pipeLock.None? && !Stale(s'))
  {
    match e
    case Step(b, k, ok) => StepKeeps(s, b, k, ok, a, later, closed);
    case CallRead(b, _) => assert ProcOk(s, a) && ProcOk(s, b);
    case CallWrite(f) => Regroup(s.frames, [f], later);
    case Put(_) =>
  }

  // ------------------------------------------- runs in which no reader can be stranded

  predicate NoAbort(s: State)
  {
    if s.pipeLock.Some? && s.pipeLock.value < |s.procs| then
      KeepsOk(s.pipeLock.value, s.procs[s.pipeLock.value], s.stash, s.heapBlocked, s.frames, false)
    else !Stale(s)
  }

  lemma KeepsMore(a: nat, p: Process, stash: Option<Header>, blocked: bool, fs: seq<Frame>, f: Frame)
    requires KeepsOk(a, p, stash, blocked, fs, false)
    ensures KeepsOk(a, p, stash, blocked, fs + [f], false)
  {
    if Spared(a, Wanted(p), fs, false) {
      SparedMore(a, Wanted(p), fs, f);
    }
    if p.header.size <= Wanted(p) && Spared(a, Wanted(p) - p.header.size, fs, false) {
      SparedMore(a, Wanted(p) - p.header.size, fs, f);
    }
  }

  // With the pipe free, a step can at most take the lock.
  lemma FreeNoAbort(s: State, e: Event)
    requires Inv(s) && s.pipeLock.None? && !Stale(s) && Possible(s, e)
    ensures NoAbort(After(s, e))
  {
    if e.Step? {
      assert ProcOk(s, e.a);
      QueueActUndisturbed(s, e.a);
    }
  }

  lemma HeldNoAbort(s: State, e: Event, a: nat)
    requires Inv(s) && s.pipeLock == Some(a) && a < |s.procs| && NoAbort(s) && Possible(s, e) && !Swallows(s, e)
    ensures NoAbort(After(s, e))
  {
    assert s.frames + [] == s.frames;
    if e.CallWrite? {
      KeepsMore(a, s.procs[a], s.stash, s.heapBlocked, s.frames, e.f);
      assert [e.f] + [] == [e.f];
    } else if e.Step? && s.procs[e.a].pc == NextFrame {
      assert ProcOk(s, e.a);
    }
    Keeps(s, e, a, [], false);
    assert After(s, e).frames + [] == After(s, e).frames;
  }

  lemma {:induction false} RunNoAbort(tr: seq<State>, es: seq<Event>, i: nat)
    requires Run(tr, es) && i < |tr|
    requires forall j :: 0 <= j < i ==> !Swallows(tr[j], es[j])
    ensures NoAbort(tr[i])
    decreases i
  {
    if i > 0 {
      RunInv(tr, es, i - 1);
      RunNoAbort(tr, es, i - 1);
      if tr[i - 1].pipeLock.None? {
        FreeNoAbort(tr[i - 1], es[i - 1]);
      } else {
        HeldNoAbort(tr[i - 1], es[i - 1], tr[i - 1].pipeLock.value);
      }
    }
  }

  /** As long as no reader takes a stashed frame, with the heap marked blocked, when neither
      that frame nor those in transit keep it from being filled exactly, no mark goes stale
      and no process fails the assert, in any interleaving. */
  lemma NeverAborts(tr: seq<State>, es: seq<Event>, i: nat, a: nat)
    requires Run(tr, es) && i < |tr| && a < |tr[i].procs|
    requires forall j :: 0 <= j < i ==> !Swallows(tr[j], es[j])
    ensures !Stale(tr[i]) && tr[i].procs[a].pc != Aborted
  {
    RunInv(tr, es, i);
    RunNoAbort(tr, es, i);
    assert ProcOk(tr[i], a);
  }

  // ------------------------------------------------------- how one such reading ends

  // With the heap marked blocked, only the target of the stashed frame gets to take it; who
  // lets go of the pipe early leaves a stash.
  predicate MineOk(a: nat, p: Process, stash: Option<Header>, blocked: bool)
  {
    match p.pc
    case NextFrame => blocked && stash.Some? ==> stash.value.target == a
    case EnqueueUnlock => stash.None?
    case ReleasePipeLock => |p.buf| == p.size || stash.Some?
    case _ => true
  }

  predicate Mine(s: State)
  {
    s.pipeLock.Some? && s.pipeLock.value < |s.procs| ==>
      MineOk(s.pipeLock.value, s.procs[s.pipeLock.value], s.stash, s.heapBlocked)
  }

  lemma HolderActMine(s: State, a: nat, ok: bool)
    requires Shape(s) && Mine(s) && a < |s.procs| && ProcOk(s, a) && Enabled(s, a, 0) && s.pipeLock == Some(a)
    requires !IsQueuePc(s.procs[a].pc) && !IsTransferPc(s.procs[a].pc)
    ensures Mine(HolderAct(s, a, ok))
  {
  }

  lemma TransferActMine(s: State, a: nat, k: nat)
    requires Shape(s) && a < |s.procs| && ProcOk(s, a) && Enabled(s, a, k) && s.pipeLock == Some(a) && IsTransferPc(s.procs[a].pc)
    ensures Mine(TransferAct(s, a, k))
  {
  }

  lemma QueueActMine(s: State, a: nat)
    requires Shape(s) && Mine(s) && a < |s.procs| && ProcOk(s, a) && Enabled(s, a, 0) && IsQueuePc(s.procs[a].pc)
    ensures Mine(QueueAct(s, a))
  {
  }

  lemma StepMine(s: State, e: Event)
    requires Inv(s) && Mine(s) && Possible(s, e)
    ensures Mine(After(s, e))
  {
    if e.Step? {
      assert ProcOk(s, e.a);
      if IsQueuePc(s.procs[e.a].pc) {
        QueueActMine(s, e.a);
      } else if IsTransferPc(s.procs[e.a].pc) {
        TransferActMine(s, e.a, e.k);
      } else {
        HolderActMine(s, e.a, e.ok);
      }
    } else if e.CallRead? {
      assert ProcOk(s, e.a);
    }
  }

  lemma {:induction false} RunMine(tr: seq<State>, es: seq<Event>, i: nat)
    requires Run(tr, es) && i < |tr|
    ensures Mine(tr[i])
  {
    if i > 0 {
      RunInv(tr, es, i - 1);
      RunMine(tr, es, i - 1);
      StepMine(tr[i - 1], es[i - 1]);
    }
  }

  /** A reader lets go of the pipe only with all its bytes, or when it leaves a stashed frame
      behind. */
  lemma GivesUpOnlyForStash(tr: seq<State>, es: seq<Event>, i: nat, a: nat)
    requires Run(tr, es) && i < |tr| && a < |tr[i].procs| && tr[i].procs[a].pc == ReleasePipeLock
    ensures |tr[i].procs[a].buf| == tr[i].procs[a].size || tr[i].stash.Some?
  {
    RunInv(tr, es, i);
    RunMine(tr, es, i);
    assert ProcOk(tr[i], a);
  }

  // The frames whose writing starts in events i to j.
  function Written(es: seq<Event>, i: nat, j: nat): seq<Frame>
    requires i <= j <= |es|
    decreases j - i
  {
    if i == j then [] else (if es[i].CallWrite? then [es[i].f] else []) + Written(es, i + 1, j)
  }

  lemma AheadWritten(s: State, es: seq<Event>, i: nat, j: nat)
    requires i < j <= |es|
    ensures Ahead(s, es[i], Written(es, i + 1, j)) == s.frames + Written(es, i, j)
  {
    if !es[i].CallWrite? {
      assert [] + Written(es, i + 1, j) == Written(es, i + 1, j);
    }
  }

  // The holder has taken its frame: it will not meet a stash again before it lets go.
  predicate Taken(p: Process, stash: Option<Header>)
  {
    match p.pc
    case NextFrame => stash.None?
    case EnqueueUnlock => stash.None?
    case SetBlocked => true
    case ReleasePipeLock => true
    case _ => InHand(p.pc) || p.pc.ReadHeader?
  }

  // Reader a is on its way to fill its request with its own frames.
  predicate FillOk(a: nat, p: Process, stash: Option<Header>, fs: seq<Frame>)
  {
    match p.pc
    case NextFrame => stash.None? && Fills(a, Wanted(p), fs)
    case ReadHeader => Fills(a, Wanted(p), fs)
    case GotHeader => p.header.target == a && p.header.size <= Wanted(p) && Fills(a, Wanted(p) - p.header.size, fs)
    case ReadOwn(rem) => rem == p.header.size <= Wanted(p) && Fills(a, Wanted(p) - p.header.size, fs)
    case ReleasePipeLock => stash.None?
    case _ => false
  }

  lemma HolderActTaken(s: State, a: nat, ok: bool)
    requires Shape(s) && a < |s.procs| && ProcOk(s, a) && Enabled(s, a, 0) && s.pipeLock == Some(a)
    requires !IsQueuePc(s.procs[a].pc) && !IsTransferPc(s.procs[a].pc) && Taken(s.procs[a], s.stash)
    ensures var s' := HolderAct(s, a, ok); |s'.procs| == |s.procs| && Taken(s'.procs[a], s'.stash)
  {
  }

  lemma TransferActTaken(s: State, a: nat, k: nat)
    requires Shape(s) && a < |s.procs| && ProcOk(s, a) && Enabled(s, a, k) && s.pipeLock == Some(a)
    requires IsTransferPc(s.procs[a].pc) && Taken(s.procs[a], s.stash)
    ensures var s' := TransferAct(s, a, k); |s'.procs| == |s.procs| && Taken(s'.procs[a], s'.stash)
  {
  }

  lemma OwnTaken(s: State, a: nat, k: nat, ok: bool)
    requires Shape(s) && a < |s.procs| && ProcOk(s, a) && Enabled(s, a, k) && s.pipeLock == Some(a)
    requires Taken(s.procs[a], s.stash)
    ensures var s' := Act(s, a, k, ok);
      |s'.procs| == |s.procs| && (s'.pipeLock == Some(a) ==> Taken(s'.procs[a], s'.stash))
  {
    if IsTransferPc(s.procs[a].pc) {
      TransferActTaken(s, a, k);
    } else if !IsQueuePc(s.procs[a].pc) {
      HolderActTaken(s, a, ok);
    }
  }

  lemma HolderActFills(s: State, a: nat, ok: bool, fs: seq<Frame>)
    requires Shape(s) && a < |s.procs| && ProcOk(s, a) && Enabled(s, a, 0) && s.pipeLock == Some(a)
    requires !IsQueuePc(s.procs[a].pc) && !IsTransferPc(s.procs[a].pc)
    requires FillOk(a, s.procs[a], s.stash, fs)
    ensures var s' := HolderAct(s, a, ok);
      && s'.pipeLock == Some(a) && s'.heapBlocked == s.heapBlocked && |s'.procs| == |s.procs| && s'.frames == s.frames
      && FillOk(a, s'.procs[a], s'.stash, fs)
  {
  }

  lemma HeaderFills(a: nat, p: Process, stash: Option<Header>, fs: seq<Frame>, h: Header)
    requires p.pc == ReadHeader && |p.buf| < p.size && FillOk(a, p, stash, fs)
    requires fs != [] && h == Header(|fs[0].data|, fs[0].target)
    ensures FillOk(a, p.(pc := GotHeader, headerBytes := [], header := h), stash, fs[1..])
  {
  }

  lemma TakeHeaderFills(s: State, a: nat, k: nat, later: seq<Frame>)
    requires Shape(s) && a < |s.procs| && s.pipeLock == Some(a) && s.cur.None? && FramesOk(s) && StreamOk(s)
    requires s.procs[a].pc == ReadHeader && Enabled(s, a, k) && |s.procs[a].buf| < s.procs[a].size
    requires FillOk(a, s.procs[a], s.stash, s.frames + later)
    ensures var s' := TakeHeader(s, a, k);
      && s'.pipeLock == Some(a) && s'.heapBlocked == s.heapBlocked && |s'.procs| == |s.procs|
      && FillOk(a, s'.procs[a], s'.stash, s'.frames + later)
  {
    TakeHeaderStream(s, a, k);
    var p := s.procs[a];
    if |p.headerBytes| + k == HEADER_SIZE {
      FirstOf(s.frames, later);
      HeaderFills(a, p, s.stash, s.frames + later, DecodeHeader(p.headerBytes + s.pipe[..k]));
    }
  }

  lemma TakeOwnFills(s: State, a: nat, k: nat, fs: seq<Frame>)
    requires Shape(s) && a < |s.procs| && ProcOk(s, a) && Enabled(s, a, k) && s.pipeLock == Some(a) && s.procs[a].pc.ReadOwn?
    requires FillOk(a, s.procs[a], s.stash, fs)
    ensures var s' := TakeOwn(s, a, k);
      && s'.pipeLock == Some(a) && s'.heapBlocked == s.heapBlocked && |s'.procs| == |s.procs| && s'.frames == s.frames
      && FillOk(a, s'.procs[a], s'.stash, fs)
  {
  }

  // A step of the reader itself; the last one leaves the stash empty.
  lemma OwnFills(s: State, a: nat, k: nat, ok: bool, later: seq<Frame>)
    requires Inv(s) && a < |s.procs| && Enabled(s, a, k) && s.pipeLock == Some(a)
    requires FillOk(a, s.procs[a], s.stash, s.frames + later)
    ensures var s' := Act(s, a, k, ok);
      && s'.heapBlocked == s.heapBlocked && |s'.procs| == |s.procs|
      && (if s'.pipeLock == Some(a) then FillOk(a, s'.procs[a], s'.stash, s'.frames + later)
          else s'.pipeLock.None? && s'.stash.None?)
  {
    assert ProcOk(s, a);
    if s.procs[a].pc.ReadHeader? {
      TakeHeaderFills(s, a, k, later);
    } else if s.procs[a].pc.ReadOwn? {
      TakeOwnFills(s, a, k, s.frames + later);
    } else if !s.procs[a].pc.ReleasePipeLock? {
      HolderActFills(s, a, ok, s.frames + later);
    }
  }

  // Another process unblocks the heap.
  predicate Clears(s: State, e: Event, a: nat)
  {
    e.Step? && e.a != a && e.a < |s.procs| && s.procs[e.a].pc.Unblock?
  }

  lemma QueueActLeaves(s: State, b: nat, a: nat)
    requires Shape(s) && a < |s.procs| && b < |s.procs| && ProcOk(s, b) && s.pipeLock == Some(a) && b != a
    requires Enabled(s, b, 0) && IsQueuePc(s.procs[b].pc)
    ensures var s' := QueueAct(s, b);
      && |s'.procs| == |s.procs| && s'.procs[a] == s.procs[a] && s'.pipeLock == s.pipeLock && s'.stash == s.stash
      && (!s.procs[b].pc.Unblock? ==> s'.heapBlocked == s.heapBlocked) && s'.frames == s.frames
  {
  }

  // What any other event leaves alone while a holds the pipe.
  lemma OthersLeave(s: State, e: Event, a: nat)
    requires Inv(s) && Possible(s, e) && a < |s.procs| && s.pipeLock == Some(a) && !(e.Step? && e.a == a)
    ensures var s' := After(s, e);
      && |s'.procs| == |s.procs| && s'.procs[a] == s.procs[a] && s'.pipeLock == s.pipeLock && s'.stash == s.stash
      && (!Clears(s, e, a) ==> s'.heapBlocked == s.heapBlocked)
      && s'.frames == s.frames + if e.CallWrite? then [e.f] else []
  {
    assert ProcOk(s, a) && s.frames + [] == s.frames;
    if e.Step? {
      assert ProcOk(s, e.a);
      QueueActLeaves(s, e.a, a);
    } else if e.CallRead? {
      assert ProcOk(s, e.a);
    }
  }

  lemma TakenStep(s: State, e: Event, a: nat)
    requires Inv(s) && Possible(s, e) && a < |s.procs| && s.pipeLock == Some(a) && Taken(s.procs[a], s.stash)
    ensures var s' := After(s, e); |s'.procs| == |s.procs| && (s'.pipeLock == Some(a) ==> Taken(s'.procs[a], s'.stash))
  {
    if e.Step? && e.a == a {
      assert ProcOk(s, a);
      OwnTaken(s, a, e.k, e.ok);
    } else {
      OthersLeave(s, e, a);
    }
  }

  lemma FillStep(s: State, e: Event, a: nat, later: seq<Frame>)
    requires Inv(s) && Possible(s, e) && a < |s.procs| && s.pipeLock == Some(a)
    requires FillOk(a, s.procs[a], s.stash, Ahead(s, e, later)) && s.heapBlocked && !Clears(s, e, a)
    ensures var s' := After(s, e);
      && |s'.procs| == |s.procs|
      && (if s'.pipeLock == Some(a) then FillOk(a, s'.procs[a], s'.stash, s'.frames + later) && s'.heapBlocked else Stale(s'))
  {
    if e.Step? && e.a == a {
      OwnFills(s, a, e.k, e.ok, later);
    } else {
      OthersLeave(s, e, a);
      if e.CallWrite? {
        Regroup(s.frames, [e.f], later);
      } else {
        assert s.frames + [] == s.frames;
      }
    }
  }

  // Reader a holds the pipe from i on and lets go of it at j, and nobody else unblocks the
  // heap meanwhile.
  ghost predicate Tenure(tr: seq<State>, es: seq<Event>, i: nat, j: nat, a: nat)
  {
    && Run(tr, es) && i < j < |tr|
    && (forall m {:trigger tr[m].pipeLock} :: i <= m < j ==> tr[m].pipeLock == Some(a))
    && tr[j].pipeLock != Some(a)
    && (forall m {:trigger tr[m]} :: i <= m < j ==> !Clears(tr[m], es[m], a))
  }

  lemma {:induction false} TenureFills(tr: seq<State>, es: seq<Event>, i: nat, j: nat, a: nat)
    requires Tenure(tr, es, i, j, a) && a < |tr[i].procs| && tr[i].heapBlocked
    requires FillOk(a, tr[i].procs[a], tr[i].stash, tr[i].frames + Written(es, i, j))
    ensures Stale(tr[j])
    decreases j - i
  {
    RunInv(tr, es, i);
    AheadWritten(tr[i], es, i, j);
    FillStep(tr[i], es[i], a, Written(es, i + 1, j));
    if i + 1 < j {
      TenureFills(tr, es, i + 1, j, a);
    }
  }

  lemma {:induction false} TenureKeeps(tr: seq<State>, es: seq<Event>, i: nat, j: nat, a: nat)
    requires Tenure(tr, es, i, j, a) && a < |tr[i].procs| && Taken(tr[i].procs[a], tr[i].stash)
    requires KeepsOk(a, tr[i].procs[a], tr[i].stash, tr[i].heapBlocked, tr[i].frames + Written(es, i, j), true)
    ensures !Stale(tr[j])
    decreases j - i
  {
    RunInv(tr, es, i);
    AheadWritten(tr[i], es, i, j);
    NoSecondStash(tr[i], es[i], a);
    Keeps(tr[i], es[i], a, Written(es, i + 1, j), true);
    TakenStep(tr[i], es[i], a);
    if i + 1 < j {
      TenureKeeps(tr, es, i + 1, j, a);
    }
  }

  lemma NoSecondStash(s: State, e: Event, a: nat)
    requires Inv(s) && Possible(s, e) && a < |s.procs| && s.pipeLock == Some(a) && Taken(s.procs[a], s.stash)
    ensures e.Step? && s.procs[e.a].pc == NextFrame ==> s.stash.None?
  {
    if e.Step? {
      assert ProcOk(s, e.a);
    }
  }

  // Reader a takes the stashed frame at i, with the heap marked blocked.
  ghost predicate Takes(tr: seq<State>, es: seq<Event>, i: nat, j: nat, a: nat)
  {
    && Tenure(tr, es, i, j, a) && a < |tr[i].procs| && es[i].Step? && es[i].a == a
    && tr[i].procs[a].pc == NextFrame && tr[i].heapBlocked && tr[i].stash.Some?
  }

  lemma TakesStash(tr: seq<State>, es: seq<Event>, i: nat, j: nat, a: nat)
    requires Takes(tr, es, i, j, a)
    ensures tr[i].stash.value.target == a
    ensures var s := tr[i];
      && tr[i + 1] == s.(stash := None, procs := s.procs[a := s.procs[a].(pc := GotHeader, header := s.stash.value)])
      && tr[i + 1].pipeLock == Some(a) && Written(es, i, j) == Written(es, i + 1, j)
  {
    RunInv(tr, es, i);
    RunMine(tr, es, i);
    assert ProcOk(tr[i], a);
    assert [] + Written(es, i + 1, j) == Written(es, i + 1, j);
  }

  lemma SwallowFills(tr: seq<State>, es: seq<Event>, i: nat, j: nat, a: nat)
    requires Takes(tr, es, i, j, a)
    requires tr[i].stash.value.size <= Wanted(tr[i].procs[a])
    requires Fills(a, Wanted(tr[i].procs[a]) - tr[i].stash.value.size, tr[i].frames + Written(es, i, j))
    ensures Stale(tr[j])
  {
    TakesStash(tr, es, i, j, a);
    TakenFills(a, tr[i].procs[a], tr[i].stash.value, tr[i].frames + Written(es, i, j));
    TenureFills(tr, es, i + 1, j, a);
  }

  lemma TakenFills(a: nat, p: Process, h: Header, fs: seq<Frame>)
    requires h.target == a && h.size <= Wanted(p) && Fills(a, Wanted(p) - h.size, fs)
    ensures FillOk(a, p.(pc := GotHeader, header := h), None, fs)
  {
  }

  lemma SwallowSpared(tr: seq<State>, es: seq<Event>, i: nat, j: nat, a: nat)
    requires Takes(tr, es, i, j, a)
    requires !Strands(a, Wanted(tr[i].procs[a]), tr[i].stash.value.size, tr[i].frames + Written(es, i, j), true)
    ensures !Stale(tr[j])
  {
    TakesStash(tr, es, i, j, a);
    TenureKeeps(tr, es, i + 1, j, a);
  }

  /** How the reading ends that takes a stashed frame with the heap marked blocked: the mark
      is stale when the reader lets go of the pipe if and only if the stashed frame and the
      reader's own frames behind it, those written meanwhile included, fill its request
      exactly before any frame for somebody else or too large. */
  lemma SwallowEndsStale(tr: seq<State>, es: seq<Event>, i: nat, j: nat, a: nat)
    requires Takes(tr, es, i, j, a)
    ensures var w, size := Wanted(tr[i].procs[a]), tr[i].stash.value.size;
      Stale(tr[j]) <==> size <= w && Fills(a, w - size, tr[i].frames + Written(es, i, j))
  {
    var w, size, fs := Wanted(tr[i].procs[a]), tr[i].stash.value.size, tr[i].frames + Written(es, i, j);
    if size <= w {
      FillsOrSpared(a, w - size, fs);
    }
    if size <= w && Fills(a, w - size, fs) {
      SwallowFills(tr, es, i, j, a);
    } else {
      SwallowSpared(tr, es, i, j, a);
    }
  }
}
