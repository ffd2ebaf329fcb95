/** Stream conservation for the machine of Demultiplex: in every interleaving each
    target receives exactly the bytes sent to it, in order. */
module DemultiplexSafety {
  import opened Collections
  import opened Bytes
  import opened Demultiplex

  // ----------------------------------------------------- who holds which lock

  predicate HoldsPipe(pc: Pc)
  {
    match pc
    case Idle => false
    case HasMessage(locked) => locked
    case TakeQueueLock(locked) => locked
    case Dequeue(locked) => locked
    case Unblock(locked) => locked
    case ReleaseQueueLock(locked) => locked
    case TestPipeLock => false
    case _ => true
  }

  predicate HoldsQueue(pc: Pc)
  {
    pc.Dequeue? || pc.Unblock? || pc.ReleaseQueueLock? || pc.Enqueue? || pc.EnqueueUnlock?
  }

  // The process has consumed a header and not yet dealt with the whole frame.
  predicate InHand(pc: Pc)
  {
    pc.GotHeader? || pc.ReadOwn? || pc.Allocate? || pc.SetStash? || pc.ClearBlocked? || pc.Fill? || pc.EnqueueLock? || pc.Enqueue?
  }

  // At these points the request is not yet complete.
  predicate WantsMore(pc: Pc)
  {
    pc.HasMessage? || pc.TakeQueueLock? || pc.TestPipeLock? || pc.CheckBlocked? || pc.CheckStash? || pc.NextFrame? || pc.ReadHeader? || pc.GotHeader?
  }

  // ---------------------------------------------------------------- invariant

  // Facts about one process that depend on nothing else.
  predicate LocalOk(a: nat, p: Process, n: nat)
  {
    && |p.buf| <= p.size
    && (WantsMore(p.pc) ==> |p.buf| < p.size)
    && (if p.pc.ReadHeader? then |p.headerBytes| < HEADER_SIZE else p.headerBytes == [])
    && (if p.pc.Fill? then |p.space| < p.header.size
        else if p.pc.EnqueueLock? || p.pc.Enqueue? then |p.space| == p.header.size
        else p.space == [])
    && (InHand(p.pc) ==> p.header.target < n && p.header.size > 0)
    && (p.pc.ReadOwn? ==>
          && p.header.target == a && 0 < p.pc.rem <= p.header.size && p.pc.rem <= p.size - |p.buf|
          && (p.pc.rem == p.header.size || p.pc.rem == p.size - |p.buf|))
    && (InHand(p.pc) && !p.pc.GotHeader? && !p.pc.ReadOwn? && p.header.target == a ==> |p.buf| == p.size)
  }

  // A stashed header describes the frame in transit.
  predicate StashOk(stash: Option<Header>, cur: Option<Frame>, n: nat)
  {
    match stash
    case None => cur.None?
    case Some(h) => cur.Some? && cur.value.target == h.target < n && |cur.value.data| == h.size > 0
  }

  // Facts about the holder of the pipe lock; q is its own queue.
  predicate HolderOk(p: Process, stash: Option<Header>, cur: Option<Frame>, q: seq<Message>, n: nat)
  {
    && (if InHand(p.pc) then
          stash.None? && cur.Some? && cur.value.target == p.header.target && |cur.value.data| + |p.space| == p.header.size
        else if p.pc.ReadHeader? then stash.None? && cur.None?
        else StashOk(stash, cur, n))
    && (p.pc.SetBlocked? ==> stash.Some?)
    && (|p.buf| < p.size && !p.pc.HasMessage? && !p.pc.TakeQueueLock? && !p.pc.Dequeue? && !p.pc.Unblock? ==> q == [])
  }

  // Process a as it appears to the invariant: its own record, whether it holds the two
  // locks, what has been delivered to it, the stash, the frame in transit, its queue.
  predicate View(a: nat, p: Process, n: nat, hasPipe: bool, hasQueue: bool, got: seq<Byte>,
                 stash: Option<Header>, cur: Option<Frame>, q: seq<Message>)
  {
    && LocalOk(a, p, n)
    && HoldsPipe(p.pc) == hasPipe
    && HoldsQueue(p.pc) == hasQueue
    && (p.pc != Idle ==> |got| == p.start + |p.buf| && got[p.start..] == p.buf)
    && (hasPipe ==> HolderOk(p, stash, cur, q, n))
  }

  predicate ProcOk(s: State, a: nat)
    requires Shape(s) && a < |s.procs|
  {
    View(a, s.procs[a], |s.procs|, s.pipeLock == Some(a), s.queueLock == Some(a), s.delivered[a], s.stash, s.cur, s.queues[a])
  }

  function HeldHeader(s: State): seq<Byte>
  {
    if s.pipeLock.Some? && s.pipeLock.value < |s.procs| then s.procs[s.pipeLock.value].headerBytes else []
  }

  // Bytes for t that the lock holder has read into message space.
  function HeldSpace(s: State, t: nat): seq<Byte>
  {
    if s.pipeLock.Some? && s.pipeLock.value < |s.procs| && s.procs[s.pipeLock.value].header.target == t
    then s.procs[s.pipeLock.value].space else []
  }

  function CurRest(cur: Option<Frame>): seq<Byte>
  {
    if cur.Some? then cur.value.data else []
  }

  function CurFor(cur: Option<Frame>, t: nat): seq<Byte>
  {
    if cur.Some? && cur.value.target == t then cur.value.data else []
  }

  // The byte stream is in step with the framing.
  predicate StreamOk(s: State)
    requires GoodFrames(s.frames)
  {
    HeldHeader(s) + s.pipe + s.pending == CurRest(s.cur) + EncodeAll(s.frames)
  }

  /** Where the bytes for target t are: delivered, then unread in its queue, then read
      into message space, then the rest of the frame in transit (in the pipe, under the
      stashed header or under a header in hand), then the frames behind it. */
  predicate FlowOk(s: State, t: nat)
    requires Shape(s) && t < |s.procs|
  {
    s.sent[t] == s.delivered[t] + Unread(s.queues[t]) + HeldSpace(s, t) + CurFor(s.cur, t) + PayloadFor(s.frames, t)
  }

  predicate LocksOk(s: State)
  {
    && (s.pipeLock.Some? ==> s.pipeLock.value < |s.procs|)
    && (s.queueLock.Some? ==> s.queueLock.value < |s.procs|)
    && (s.pipeLock.None? ==> StashOk(s.stash, s.cur, |s.procs|))
  }

  predicate FramesOk(s: State)
  {
    GoodFrames(s.frames) && forall i :: 0 <= i < |s.frames| ==> s.frames[i].target < |s.procs|
  }

  ghost predicate Inv(s: State)
  {
    && Shape(s) && LocksOk(s) && FramesOk(s) && StreamOk(s)
    && (forall a: nat :: a < |s.procs| ==> ProcOk(s, a))
    && (forall t: nat :: t < |s.procs| ==> FlowOk(s, t))
  }

  lemma InitInv(s: State)
    requires Init(s)
    ensures Inv(s)
  {
    forall a: nat | a < |s.procs|
      ensures ProcOk(s, a) && FlowOk(s, a)
    {
      assert s.procs[a].pc == Idle;
    }
  }

  // ------------------------------------------------------------ other processes

  // What a step of process a may not disturb.
  predicate Undisturbed(s: State, s': State, a: nat)
    requires Shape(s)
  {
    && Shape(s') && |s'.procs| == |s.procs|
    && forall b: nat :: b < |s.procs| && b != a ==>
         && s'.procs[b] == s.procs[b] && s'.delivered[b] == s.delivered[b]
         && (s'.pipeLock == Some(b) <==> s.pipeLock == Some(b))
         && (s'.queueLock == Some(b) <==> s.queueLock == Some(b))
         && (s.pipeLock == Some(b) ==> s'.stash == s.stash && s'.cur == s.cur && s'.queues[b] == s.queues[b])
  }

  lemma OthersOk(s: State, s': State, a: nat, b: nat)
    requires Shape(s) && Undisturbed(s, s', a) && b < |s.procs| && b != a && ProcOk(s, b)
    ensures ProcOk(s', b)
  {
  }

  lemma QueueActUndisturbed(s: State, a: nat)
    requires Shape(s) && a < |s.procs| && ProcOk(s, a) && Enabled(s, a, 0) && IsQueuePc(s.procs[a].pc)
    ensures Undisturbed(s, QueueAct(s, a), a)
  {
  }

  // The pipe-lock holder is the only one to touch the stash and the frame in transit.
  lemma HolderActUndisturbed(s: State, a: nat, ok: bool)
    requires Shape(s) && a < |s.procs| && ProcOk(s, a) && Enabled(s, a, 0) && HoldsPipe(s.procs[a].pc)
    ensures Undisturbed(s, HolderAct(s, a, ok), a)
  {
  }

  lemma TransferActUndisturbed(s: State, a: nat, k: nat)
    requires Shape(s) && a < |s.procs| && ProcOk(s, a) && Enabled(s, a, k) && IsTransferPc(s.procs[a].pc)
    ensures Undisturbed(s, TransferAct(s, a, k), a)
  {
  }

  // ----------------------------------------------------- the acting process

  lemma ViewQueue(a: nat, p: Process, n: nat, hp: bool, hq: bool, got: seq<Byte>,
                  stash: Option<Header>, cur: Option<Frame>, q: seq<Message>)
    requires View(a, p, n, hp, hq, got, stash, cur, q)
    ensures p.pc.HasMessage? && q != [] ==> View(a, p.(pc := TakeQueueLock(p.pc.locked)), n, hp, hq, got, stash, cur, q)
    ensures p.pc.HasMessage? && q == [] ==>
      View(a, p.(pc := if p.pc.locked then CheckBlocked else TestPipeLock), n, hp, hq, got, stash, cur, q)
    ensures p.pc.TakeQueueLock? ==> View(a, p.(pc := Dequeue(p.pc.locked)), n, hp, true, got, stash, cur, q)
    ensures p.pc.Unblock? ==> View(a, p.(pc := Dequeue(p.pc.locked)), n, hp, hq, got, stash, cur, q)
  {
  }

  lemma GotMore(got: seq<Byte>, start: nat, buf: seq<Byte>, more: seq<Byte>)
    requires |got| == start + |buf| && got[start..] == buf
    ensures (got + more)[start..] == buf + more
  {
  }

  lemma ViewDone(a: nat, p: Process, n: nat, hp: bool, hq: bool, got: seq<Byte>,
                 stash: Option<Header>, cur: Option<Frame>, q: seq<Message>)
    requires View(a, p, n, hp, hq, got, stash, cur, q) && p.pc.Dequeue?
    requires q == [] || |p.buf| >= p.size
    ensures View(a, p.(pc := ReleaseQueueLock(p.pc.locked)), n, hp, hq, got, stash, cur, q)
  {
  }

  lemma ViewCopy(a: nat, p: Process, n: nat, hp: bool, hq: bool, got: seq<Byte>,
                 stash: Option<Header>, cur: Option<Frame>, q: seq<Message>,
                 bytes: seq<Byte>, q': seq<Message>, pc': Pc)
    requires View(a, p, n, hp, hq, got, stash, cur, q) && p.pc.Dequeue? && |p.buf| + |bytes| <= p.size
    requires pc' == p.pc || pc' == Unblock(p.pc.locked)
    ensures View(a, p.(pc := pc', buf := p.buf + bytes), n, hp, hq, got + bytes, stash, cur, q')
  {
    GotMore(got, p.start, p.buf, bytes);
  }

  lemma ViewLocks(a: nat, p: Process, n: nat, hp: bool, hq: bool, got: seq<Byte>,
                  stash: Option<Header>, cur: Option<Frame>, q: seq<Message>)
    requires View(a, p, n, hp, hq, got, stash, cur, q)
    ensures p.pc.ReleaseQueueLock? ==>
      View(a, p.(pc :=
        if |p.buf| == p.size then (if p.pc.locked then ReleasePipeLock else Idle)
        else if p.pc.locked then CheckBlocked
        else TestPipeLock), n, hp, false, got, stash, cur, q)
    ensures p.pc.TestPipeLock? ==> View(a, p.(pc := HasMessage(false)), n, hp, hq, got, stash, cur, q)
    ensures p.pc.TestPipeLock? && StashOk(stash, cur, n) ==> View(a, p.(pc := HasMessage(true)), n, true, hq, got, stash, cur, q)
    ensures p.pc.ReleasePipeLock? ==>
      StashOk(stash, cur, n) && View(a, p.(pc := if |p.buf| == p.size then Idle else HasMessage(false)), n, false, hq, got, stash, cur, q)
  {
  }

  lemma ViewStash(a: nat, p: Process, n: nat, hp: bool, hq: bool, got: seq<Byte>,
                  stash: Option<Header>, cur: Option<Frame>, q: seq<Message>)
    requires View(a, p, n, hp, hq, got, stash, cur, q)
    ensures p.pc.NextFrame? && stash.None? ==> View(a, p.(pc := ReadHeader, headerBytes := []), n, hp, hq, got, stash, cur, q)
    ensures p.pc.NextFrame? && stash.Some? ==> View(a, p.(pc := GotHeader, header := stash.value), n, hp, hq, got, None, cur, q)
    ensures p.pc.SetStash? ==> View(a, p.(pc := SetBlocked), n, hp, hq, got, Some(p.header), cur, q)
    ensures p.pc.SetBlocked? ==> View(a, p.(pc := ReleasePipeLock), n, hp, hq, got, stash, cur, q)
  {
  }

  lemma ViewCheck(a: nat, p: Process, n: nat, hp: bool, hq: bool, got: seq<Byte>,
                  stash: Option<Header>, cur: Option<Frame>, q: seq<Message>, pc': Pc)
    requires View(a, p, n, hp, hq, got, stash, cur, q)
    requires p.pc.CheckBlocked? || p.pc.CheckStash?
    requires pc'.CheckStash? || pc'.NextFrame? || pc'.Aborted? || pc'.ReleasePipeLock?
    ensures View(a, p.(pc := pc'), n, hp, hq, got, stash, cur, q)
  {
  }

  lemma ViewHeader(a: nat, p: Process, n: nat, hp: bool, hq: bool, got: seq<Byte>,
                   stash: Option<Header>, cur: Option<Frame>, q: seq<Message>)
    requires View(a, p, n, hp, hq, got, stash, cur, q)
    ensures p.pc.GotHeader? && p.header.target == a ==>
      View(a, p.(pc := ReadOwn(if p.header.size > Wanted(p) then Wanted(p) else p.header.size)), n, hp, hq, got, stash, cur, q)
    ensures p.pc.GotHeader? && p.header.target != a ==> View(a, p.(pc := Allocate), n, hp, hq, got, stash, cur, q)
    ensures p.pc.Allocate? ==> View(a, p.(pc := ClearBlocked), n, hp, hq, got, stash, cur, q)
    ensures p.pc.Allocate? ==> View(a, p.(pc := SetStash), n, hp, hq, got, stash, cur, q)
    ensures p.pc.ClearBlocked? ==> View(a, p.(pc := Fill, space := []), n, hp, hq, got, stash, cur, q)
  {
  }

  lemma ViewEnqueue(a: nat, p: Process, n: nat, hp: bool, hq: bool, got: seq<Byte>,
                    stash: Option<Header>, cur: Option<Frame>, q: seq<Message>, q': seq<Message>)
    requires View(a, p, n, hp, hq, got, stash, cur, q)
    ensures p.pc.EnqueueLock? ==> View(a, p.(pc := Enqueue), n, hp, true, got, stash, cur, q)
    ensures p.pc.Enqueue? && (p.header.target != a ==> q' == q) ==> View(a, p.(pc := EnqueueUnlock, space := []), n, hp, hq, got, stash, None, q')
    ensures p.pc.EnqueueUnlock? ==> View(a, p.(pc := LoopPc(p)), n, hp, false, got, stash, cur, q)
  {
  }

  lemma ViewReadHeader(a: nat, p: Process, n: nat, hp: bool, hq: bool, got: seq<Byte>,
                       stash: Option<Header>, cur: Option<Frame>, q: seq<Message>,
                       more: seq<Byte>, h: Header, f: Frame)
    requires View(a, p, n, hp, hq, got, stash, cur, q) && p.pc.ReadHeader?
    ensures |p.headerBytes + more| < HEADER_SIZE ==> View(a, p.(headerBytes := p.headerBytes + more), n, hp, hq, got, stash, cur, q)
    ensures h == Header(|f.data|, f.target) && |f.data| > 0 && f.target < n ==>
      View(a, p.(pc := GotHeader, headerBytes := [], header := h), n, hp, hq, got, stash, Some(f), q)
  {
  }

  lemma ViewFill(a: nat, p: Process, n: nat, hp: bool, hq: bool, got: seq<Byte>,
                 stash: Option<Header>, cur: Option<Frame>, q: seq<Message>, more: seq<Byte>)
    requires View(a, p, n, hp, hq, got, stash, cur, q) && p.pc.Fill?
    requires 0 < |more| && |p.space| + |more| <= p.header.size
    ensures cur.Some? && |more| <= |cur.value.data|
    ensures View(a, p.(space := p.space + more, pc := if |p.space| + |more| < p.header.size then Fill else EnqueueLock),
                 n, hp, hq, got, stash, AfterRead(cur, |more|, false), q)
  {
  }

  lemma ViewReadOwn(a: nat, p: Process, n: nat, hp: bool, hq: bool, got: seq<Byte>,
                    stash: Option<Header>, cur: Option<Frame>, q: seq<Message>, more: seq<Byte>)
    requires View(a, p, n, hp, hq, got, stash, cur, q) && p.pc.ReadOwn?
    requires 0 < |more| <= p.pc.rem
    ensures p.header.target == a && q == [] && p.space == []
    ensures cur.Some? && |more| <= |cur.value.data| == p.header.size && cur.value.target == a
    ensures var left := p.header.size - |more|;
      var p' := p.(header := p.header.(size := left), buf := p.buf + more);
      View(a, p'.(pc :=
             if |more| < p.pc.rem then ReadOwn(p.pc.rem - |more|)
             else if left > 0 then Allocate
             else LoopPc(p')),
           n, hp, hq, got + more, stash, AfterRead(cur, |more|, left == 0), q)
  {
  }

  lemma DequeueProc(s: State, a: nat)
    requires Shape(s) && a < |s.procs| && ProcOk(s, a) && LocksOk(s) && Enabled(s, a, 0)
    requires s.procs[a].pc.Dequeue?
    ensures Shape(QueueAct(s, a)) && ProcOk(QueueAct(s, a), a) && LocksOk(QueueAct(s, a))
  {
    var p, q := s.procs[a], s.queues[a];
    var hp, hq, got := s.pipeLock == Some(a), s.queueLock == Some(a), s.delivered[a];
    if q == [] || |p.buf| >= p.size {
      ViewDone(a, p, |s.procs|, hp, hq, got, s.stash, s.cur, q);
    } else {
      var want := Wanted(p);
      CopyConserves(q, want);
      var pc' := if |q[0].data| - q[0].bytesRead <= want then Unblock(p.pc.locked) else p.pc;
      ViewCopy(a, p, |s.procs|, hp, hq, got, s.stash, s.cur, q, Copied(q, want), AfterCopy(q, want), pc');
    }
  }

  lemma QueueProc(s: State, a: nat)
    requires Shape(s) && a < |s.procs| && ProcOk(s, a) && LocksOk(s) && Enabled(s, a, 0)
    requires s.procs[a].pc.HasMessage? || s.procs[a].pc.TakeQueueLock? || s.procs[a].pc.Unblock?
    ensures Shape(QueueAct(s, a)) && ProcOk(QueueAct(s, a), a) && LocksOk(QueueAct(s, a))
  {
    ViewQueue(a, s.procs[a], |s.procs|, s.pipeLock == Some(a), s.queueLock == Some(a), s.delivered[a], s.stash, s.cur, s.queues[a]);
  }

  lemma LocksProc(s: State, a: nat)
    requires Shape(s) && a < |s.procs| && ProcOk(s, a) && LocksOk(s) && Enabled(s, a, 0)
    requires s.procs[a].pc.ReleaseQueueLock? || s.procs[a].pc.TestPipeLock? || s.procs[a].pc.ReleasePipeLock?
    ensures Shape(QueueAct(s, a)) && ProcOk(QueueAct(s, a), a) && LocksOk(QueueAct(s, a))
  {
    ViewLocks(a, s.procs[a], |s.procs|, s.pipeLock == Some(a), s.queueLock == Some(a), s.delivered[a], s.stash, s.cur, s.queues[a]);
  }

  lemma StashProc(s: State, a: nat, ok: bool)
    requires Shape(s) && a < |s.procs| && ProcOk(s, a) && LocksOk(s) && Enabled(s, a, 0)
    requires s.procs[a].pc.NextFrame? || s.procs[a].pc.SetStash? || s.procs[a].pc.SetBlocked?
    ensures Shape(HolderAct(s, a, ok)) && ProcOk(HolderAct(s, a, ok), a) && LocksOk(HolderAct(s, a, ok))
  {
    ViewStash(a, s.procs[a], |s.procs|, s.pipeLock == Some(a), s.queueLock == Some(a), s.delivered[a], s.stash, s.cur, s.queues[a]);
  }

  lemma EnqueueLockProc(s: State, a: nat, ok: bool)
    requires Shape(s) && a < |s.procs| && ProcOk(s, a) && LocksOk(s) && Enabled(s, a, 0)
    requires s.procs[a].pc.EnqueueLock? || s.procs[a].pc.EnqueueUnlock?
    ensures Shape(HolderAct(s, a, ok)) && ProcOk(HolderAct(s, a, ok), a) && LocksOk(HolderAct(s, a, ok))
  {
    ViewEnqueue(a, s.procs[a], |s.procs|, s.pipeLock == Some(a), s.queueLock == Some(a), s.delivered[a], s.stash, s.cur, s.queues[a], s.queues[a]);
  }

  lemma CheckProc(s: State, a: nat, ok: bool)
    requires Shape(s) && a < |s.procs| && ProcOk(s, a) && LocksOk(s) && Enabled(s, a, 0)
    requires s.procs[a].pc.CheckBlocked? || s.procs[a].pc.CheckStash?
    ensures Shape(HolderAct(s, a, ok)) && ProcOk(HolderAct(s, a, ok), a) && LocksOk(HolderAct(s, a, ok))
  {
    ViewCheck(a, s.procs[a], |s.procs|, s.pipeLock == Some(a), s.queueLock == Some(a), s.delivered[a], s.stash, s.cur, s.queues[a], HolderAct(s, a, ok).procs[a].pc);
  }

  lemma HeaderProc(s: State, a: nat, ok: bool)
    requires Shape(s) && a < |s.procs| && ProcOk(s, a) && LocksOk(s) && Enabled(s, a, 0)
    requires s.procs[a].pc.GotHeader? || s.procs[a].pc.Allocate? || s.procs[a].pc.ClearBlocked?
    ensures Shape(HolderAct(s, a, ok)) && ProcOk(HolderAct(s, a, ok), a) && LocksOk(HolderAct(s, a, ok))
  {
    ViewHeader(a, s.procs[a], |s.procs|, s.pipeLock == Some(a), s.queueLock == Some(a), s.delivered[a], s.stash, s.cur, s.queues[a]);
  }

  lemma QueueActProc(s: State, a: nat)
    requires Shape(s) && a < |s.procs| && ProcOk(s, a) && LocksOk(s) && Enabled(s, a, 0) && IsQueuePc(s.procs[a].pc)
    ensures Shape(QueueAct(s, a)) && ProcOk(QueueAct(s, a), a) && LocksOk(QueueAct(s, a))
  {
    var pc := s.procs[a].pc;
    if pc.Dequeue? {
      DequeueProc(s, a);
    } else if pc.HasMessage? || pc.TakeQueueLock? || pc.Unblock? {
      QueueProc(s, a);
    } else {
      LocksProc(s, a);
    }
  }

  lemma HolderActProc(s: State, a: nat, ok: bool)
    requires Shape(s) && a < |s.procs| && ProcOk(s, a) && LocksOk(s) && Enabled(s, a, 0)
    requires !IsQueuePc(s.procs[a].pc) && !IsTransferPc(s.procs[a].pc)
    ensures Shape(HolderAct(s, a, ok)) && ProcOk(HolderAct(s, a, ok), a) && LocksOk(HolderAct(s, a, ok))
  {
    var pc := s.procs[a].pc;
    if pc.NextFrame? || pc.SetStash? || pc.SetBlocked? {
      StashProc(s, a, ok);
    } else if pc.EnqueueLock? || pc.EnqueueUnlock? {
      EnqueueLockProc(s, a, ok);
    } else if pc.CheckBlocked? || pc.CheckStash? {
      CheckProc(s, a, ok);
    } else {
      HeaderProc(s, a, ok);
    }
  }

  // Eight bytes at a frame boundary are the header of the next frame.
  lemma HeaderInStream(frames: seq<Frame>, got: seq<Byte>, rest: seq<Byte>)
    requires GoodFrames(frames) && |got| == HEADER_SIZE && got + rest == EncodeAll(frames)
    ensures frames != []
    ensures DecodeHeader(got) == Header(|frames[0].data|, frames[0].target)
    ensures rest == frames[0].data + EncodeAll(frames[1..])
  {
    var f := frames[0];
    var head := EncodeHeader(Header(|f.data|, f.target));
    assert got + rest == head + (f.data + EncodeAll(frames[1..]));
    assert got == (got + rest)[..HEADER_SIZE] == head;
    assert rest == (got + rest)[HEADER_SIZE..] == f.data + EncodeAll(frames[1..]);
    HeaderRoundTrip(Header(|f.data|, f.target));
  }

  // k bytes of payload from the front of the pipe belong to the frame in transit.
  lemma PayloadInStream(s: State, k: nat)
    requires GoodFrames(s.frames) && StreamOk(s) && HeldHeader(s) == [] && s.cur.Some?
    requires k <= |s.pipe| && k <= |s.cur.value.data|
    ensures s.pipe[..k] == s.cur.value.data[..k]
    ensures s.pipe[k..] + s.pending == s.cur.value.data[k..] + EncodeAll(s.frames)
  {
    var all := s.pipe + s.pending;
    assert HeldHeader(s) + s.pipe + s.pending == all;
    assert all == s.cur.value.data + EncodeAll(s.frames);
    assert s.pipe[..k] == all[..k] == s.cur.value.data[..k];
    assert s.pipe[k..] + s.pending == all[k..] == s.cur.value.data[k..] + EncodeAll(s.frames);
  }

  // Taking k bytes off the pipe moves the boundary, not the stream.
  lemma Resplit(held: seq<Byte>, pipe: seq<Byte>, pending: seq<Byte>, k: nat)
    requires k <= |pipe|
    ensures held + pipe + pending == (held + pipe[..k]) + (pipe[k..] + pending) == (held + pipe[..k]) + pipe[k..] + pending
    ensures [] + pipe + pending == pipe + pending
  {
    assert pipe == pipe[..k] + pipe[k..];
  }

  lemma TakeHeaderStream(s: State, a: nat, k: nat)
    requires Shape(s) && a < |s.procs| && s.pipeLock == Some(a) && s.cur.None? && FramesOk(s) && StreamOk(s)
    requires s.procs[a].pc == ReadHeader && Enabled(s, a, k)
    ensures var s' := TakeHeader(s, a, k); FramesOk(s') && StreamOk(s')
    ensures |s.procs[a].headerBytes| + k == HEADER_SIZE ==>
      s.frames != [] && DecodeHeader(s.procs[a].headerBytes + s.pipe[..k]) == Header(|s.frames[0].data|, s.frames[0].target)
  {
    var held := s.procs[a].headerBytes;
    var got := held + s.pipe[..k];
    Resplit(held, s.pipe, s.pending, k);
    assert [] + EncodeAll(s.frames) == EncodeAll(s.frames);
    if |got| == HEADER_SIZE {
      HeaderInStream(s.frames, got, s.pipe[k..] + s.pending);
      assert [] + s.pipe[k..] + s.pending == s.pipe[k..] + s.pending;
    }
  }

  lemma TakeHeaderProc(s: State, a: nat, k: nat)
    requires Shape(s) && a < |s.procs| && ProcOk(s, a) && FramesOk(s) && LocksOk(s)
    requires s.procs[a].pc == ReadHeader && Enabled(s, a, k)
    requires |s.procs[a].headerBytes| + k == HEADER_SIZE ==>
      s.frames != [] && DecodeHeader(s.procs[a].headerBytes + s.pipe[..k]) == Header(|s.frames[0].data|, s.frames[0].target)
    ensures var s' := TakeHeader(s, a, k); Shape(s') && LocksOk(s') && ProcOk(s', a)
  {
    var p := s.procs[a];
    var got := p.headerBytes + s.pipe[..k];
    if |got| == HEADER_SIZE {
      ViewReadHeader(a, p, |s.procs|, true, false, s.delivered[a], s.stash, s.cur, s.queues[a], s.pipe[..k], DecodeHeader(got), s.frames[0]);
    } else {
      ViewReadHeader(a, p, |s.procs|, true, false, s.delivered[a], s.stash, s.cur, s.queues[a], s.pipe[..k], p.header, Frame(0, []));
    }
  }

  // The stream after k payload bytes of the frame in transit have been read.
  lemma TakePayloadStream(s: State, s': State, k: nat, done: bool)
    requires GoodFrames(s.frames) && StreamOk(s) && HeldHeader(s) == [] && s.cur.Some?
    requires k <= |s.pipe| && k <= |s.cur.value.data| && (done ==> k == |s.cur.value.data|)
    requires s'.frames == s.frames && s'.pending == s.pending && HeldHeader(s') == []
    requires s'.pipe == s.pipe[k..] && s'.cur == AfterRead(s.cur, k, done)
    ensures StreamOk(s')
  {
    PayloadInStream(s, k);
    assert [] + s'.pipe + s'.pending == s.pipe[k..] + s.pending;
    assert CurRest(s'.cur) == s.cur.value.data[k..];
  }

  lemma TakeOwnProc(s: State, a: nat, k: nat)
    requires Shape(s) && a < |s.procs| && ProcOk(s, a) && LocksOk(s)
    requires s.procs[a].pc.ReadOwn? && Enabled(s, a, k)
    ensures var s' := TakeOwn(s, a, k);
      Shape(s') && LocksOk(s') && ProcOk(s', a)
  {
    ViewReadOwn(a, s.procs[a], |s.procs|, true, false, s.delivered[a], s.stash, s.cur, s.queues[a], s.pipe[..k]);
  }

  lemma TakeForOtherProc(s: State, a: nat, k: nat)
    requires Shape(s) && a < |s.procs| && ProcOk(s, a) && LocksOk(s)
    requires s.procs[a].pc == Fill && Enabled(s, a, k)
    ensures var s' := TakeForOther(s, a, k);
      Shape(s') && LocksOk(s') && ProcOk(s', a)
  {
    ViewFill(a, s.procs[a], |s.procs|, true, false, s.delivered[a], s.stash, s.cur, s.queues[a], s.pipe[..k]);
  }

  lemma EnqueueInv(s: State, a: nat)
    requires Shape(s) && a < |s.procs| && ProcOk(s, a) && FramesOk(s) && LocksOk(s) && StreamOk(s)
    requires s.procs[a].pc == Enqueue && Enabled(s, a, 0)
    ensures var s' := TransferAct(s, a, 0);
      Shape(s') && LocksOk(s') && StreamOk(s') && ProcOk(s', a)
  {
    var p, n := s.procs[a], |s.procs|;
    var s' := TransferAct(s, a, 0);
    ViewEnqueue(a, p, n, true, true, s.delivered[a], s.stash, s.cur, s.queues[a], s'.queues[a]);
    assert CurRest(s.cur) == [] == CurRest(s'.cur);
  }

  // --------------------------------------------------------- bytes in transit

  // Queue and bookkeeping actions leave what the lock holder has read alone.
  predicate SameHoldings(s: State, s': State, a: nat)
    requires a < |s.procs| && |s'.procs| == |s.procs|
  {
    var p, p' := s.procs[a], s'.procs[a];
    && (forall b: nat :: b < |s.procs| && b != a ==> s'.procs[b] == s.procs[b])
    && p'.headerBytes == p.headerBytes && p'.space == p.space && (p'.header == p.header || p.space == [])
    && (s'.pipeLock == s.pipeLock ||
        (p.headerBytes == [] && p.space == [] && (s.pipeLock.None? || s.pipeLock == Some(a)) && (s'.pipeLock.None? || s'.pipeLock == Some(a))))
    && s'.pipe == s.pipe && s'.pending == s.pending && s'.cur == s.cur && s'.frames == s.frames && s'.sent == s.sent
  }

  lemma HeldSame(s: State, s': State, a: nat, t: nat)
    requires a < |s.procs| && |s'.procs| == |s.procs| && SameHoldings(s, s', a)
    ensures HeldHeader(s') == HeldHeader(s) && HeldSpace(s', t) == HeldSpace(s, t)
  {
  }

  lemma QueueActHoldings(s: State, a: nat)
    requires Shape(s) && a < |s.procs| && ProcOk(s, a) && LocksOk(s) && Enabled(s, a, 0) && IsQueuePc(s.procs[a].pc)
    ensures Shape(QueueAct(s, a)) && SameHoldings(s, QueueAct(s, a), a)
  {
  }

  lemma HolderActHoldings(s: State, a: nat, ok: bool)
    requires Shape(s) && a < |s.procs| && ProcOk(s, a) && LocksOk(s) && Enabled(s, a, 0)
    requires !IsQueuePc(s.procs[a].pc) && !IsTransferPc(s.procs[a].pc)
    ensures SameHoldings(s, HolderAct(s, a, ok), a)
    ensures HolderAct(s, a, ok).delivered == s.delivered && HolderAct(s, a, ok).queues == s.queues
  {
    var pc := s.procs[a].pc;
    if pc.CheckBlocked? || pc.CheckStash? || pc.GotHeader? || pc.Allocate? {
      MarksOnly(s, a, ok);
    }
  }

  lemma MarksOnly(s: State, a: nat, ok: bool)
    requires Shape(s) && a < |s.procs|
    requires var pc := s.procs[a].pc; pc.CheckBlocked? || pc.CheckStash? || pc.GotHeader? || pc.Allocate?
    ensures SameHoldings(s, HolderAct(s, a, ok), a)
    ensures HolderAct(s, a, ok).delivered == s.delivered && HolderAct(s, a, ok).queues == s.queues
  {
  }

  // Moving bytes from one place to the next keeps the whole.
  lemma Shift(delivered: seq<Byte>, moved: seq<Byte>, unread: seq<Byte>, rest: seq<Byte>)
    ensures delivered + (moved + unread) + rest == (delivered + moved) + unread + rest
  {
  }

  lemma QueueActFlow(s: State, a: nat, t: nat)
    requires Shape(s) && a < |s.procs| && ProcOk(s, a) && LocksOk(s) && Enabled(s, a, 0) && IsQueuePc(s.procs[a].pc)
    requires t < |s.procs| && FlowOk(s, t)
    ensures Shape(QueueAct(s, a)) && FlowOk(QueueAct(s, a), t)
  {
    var p := s.procs[a];
    QueueActHoldings(s, a);
    HeldSame(s, QueueAct(s, a), a, t);
    if t == a && p.pc.Dequeue? && s.queues[a] != [] && |p.buf| < p.size {
      CopyConserves(s.queues[a], Wanted(p));
      Shift(s.delivered[a], Copied(s.queues[a], Wanted(p)), Unread(AfterCopy(s.queues[a], Wanted(p))), HeldSpace(s, t));
    }
  }

  lemma TakeHeaderFlow(s: State, a: nat, k: nat, t: nat)
    requires Shape(s) && a < |s.procs| && s.pipeLock == Some(a) && s.cur.None? && s.procs[a].space == []
    requires s.procs[a].pc == ReadHeader && Enabled(s, a, k) && t < |s.procs| && FlowOk(s, t)
    requires |s.procs[a].headerBytes| + k == HEADER_SIZE ==> s.frames != []
    ensures FlowOk(TakeHeader(s, a, k), t)
  {
    var s' := TakeHeader(s, a, k);
    assert HeldSpace(s, t) == [] == HeldSpace(s', t);
    var base := s.delivered[t] + Unread(s.queues[t]) + [];
    if |s.procs[a].headerBytes| + k == HEADER_SIZE {
      assert PayloadFor(s.frames, t) == CurFor(s'.cur, t) + PayloadFor(s'.frames, t);
      assert base + [] + PayloadFor(s.frames, t) == base + CurFor(s'.cur, t) + PayloadFor(s'.frames, t);
    }
  }

  lemma TakeOwnFlow(s: State, a: nat, k: nat, t: nat)
    requires Shape(s) && a < |s.procs| && s.pipeLock == Some(a) && s.cur.Some? && s.cur.value.target == a && s.procs[a].space == []
    requires s.procs[a].pc.ReadOwn? && Enabled(s, a, k) && t < |s.procs| && FlowOk(s, t)
    requires s.queues[a] == [] && |s.cur.value.data| == s.procs[a].header.size && s.pipe[..k] == s.cur.value.data[..k]
    ensures FlowOk(TakeOwn(s, a, k), t)
  {
    var s' := TakeOwn(s, a, k);
    assert HeldSpace(s, t) == [] == HeldSpace(s', t);
    if t == a {
      var data := s.cur.value.data;
      assert data == data[..k] + data[k..];
      assert CurFor(s'.cur, t) == data[k..];
      assert s.delivered[a] + [] + [] + data == (s.delivered[a] + data[..k]) + [] + [] + data[k..];
    }
  }

  lemma TakeForOtherFlow(s: State, a: nat, k: nat, t: nat)
    requires Shape(s) && a < |s.procs| && s.pipeLock == Some(a) && s.cur.Some? && s.cur.value.target == s.procs[a].header.target
    requires s.procs[a].pc == Fill && Enabled(s, a, k) && t < |s.procs| && FlowOk(s, t)
    requires k <= |s.cur.value.data| && s.pipe[..k] == s.cur.value.data[..k]
    ensures FlowOk(TakeForOther(s, a, k), t)
  {
    var s' := TakeForOther(s, a, k);
    if t == s.procs[a].header.target {
      var data, space := s.cur.value.data, s.procs[a].space;
      var base := s.delivered[t] + Unread(s.queues[t]);
      assert data == data[..k] + data[k..];
      assert base + space + data == base + (space + data[..k]) + data[k..];
    }
  }

  lemma EnqueueFlow(s: State, a: nat, t: nat)
    requires Shape(s) && a < |s.procs| && s.pipeLock == Some(a) && s.cur.Some? && s.cur.value.data == []
    requires s.procs[a].pc == Enqueue && Enabled(s, a, 0) && t < |s.procs| && FlowOk(s, t)
    ensures Shape(TransferAct(s, a, 0)) && FlowOk(TransferAct(s, a, 0), t)
  {
    var p := s.procs[a];
    var s' := TransferAct(s, a, 0);
    assert HeldSpace(s', t) == [];
    if t == p.header.target {
      var m := Message(p.space, 0);
      UnreadAppend(s.queues[t], m);
      assert m.data[m.bytesRead..] == p.space;
      assert s.delivered[t] + Unread(s.queues[t]) + p.space == s.delivered[t] + (Unread(s.queues[t]) + p.space);
    }
  }

  // ------------------------------------------------------------- every event

  lemma QueueActInv(s: State, a: nat)
    requires Inv(s) && a < |s.procs| && Enabled(s, a, 0) && IsQueuePc(s.procs[a].pc)
    ensures Inv(QueueAct(s, a))
  {
    assert ProcOk(s, a);
    var s' := QueueAct(s, a);
    QueueActProc(s, a);
    QueueActUndisturbed(s, a);
    QueueActHoldings(s, a);
    HeldSame(s, s', a, 0);
    forall b: nat | b < |s'.procs|
      ensures ProcOk(s', b) && FlowOk(s', b)
    {
      QueueActFlow(s, a, b);
      if b != a {
        OthersOk(s, s', a, b);
      }
    }
  }

  lemma HolderActInv(s: State, a: nat, ok: bool)
    requires Inv(s) && a < |s.procs| && Enabled(s, a, 0) && !IsQueuePc(s.procs[a].pc) && !IsTransferPc(s.procs[a].pc)
    ensures Inv(HolderAct(s, a, ok))
  {
    assert ProcOk(s, a);
    var s' := HolderAct(s, a, ok);
    HolderActProc(s, a, ok);
    HolderActUndisturbed(s, a, ok);
    HolderActHoldings(s, a, ok);
    HeldSame(s, s', a, 0);
    forall b: nat | b < |s'.procs|
      ensures ProcOk(s', b) && FlowOk(s', b)
    {
      HeldSame(s, s', a, b);
      assert FlowOk(s, b);
      if b != a {
        OthersOk(s, s', a, b);
      }
    }
  }

  lemma TakeHeaderInv(s: State, a: nat, k: nat)
    requires Inv(s) && a < |s.procs| && s.procs[a].pc == ReadHeader && Enabled(s, a, k)
    ensures Inv(TakeHeader(s, a, k))
  {
    assert ProcOk(s, a);
    var s' := TakeHeader(s, a, k);
    TakeHeaderStream(s, a, k);
    TakeHeaderProc(s, a, k);
    TransferActUndisturbed(s, a, k);
    forall b: nat | b < |s'.procs|
      ensures ProcOk(s', b) && FlowOk(s', b)
    {
      TakeHeaderFlow(s, a, k, b);
      if b != a {
        OthersOk(s, s', a, b);
      }
    }
  }

  lemma TakeOwnInv(s: State, a: nat, k: nat)
    requires Inv(s) && a < |s.procs| && s.procs[a].pc.ReadOwn? && Enabled(s, a, k)
    ensures Inv(TakeOwn(s, a, k))
  {
    assert ProcOk(s, a);
    var s' := TakeOwn(s, a, k);
    var p := s.procs[a];
    ViewReadOwn(a, p, |s.procs|, true, false, s.delivered[a], s.stash, s.cur, s.queues[a], s.pipe[..k]);
    TakeOwnProc(s, a, k);
    PayloadInStream(s, k);
    TakePayloadStream(s, s', k, p.header.size - k == 0);
    TransferActUndisturbed(s, a, k);
    forall b: nat | b < |s'.procs|
      ensures ProcOk(s', b) && FlowOk(s', b)
    {
      TakeOwnFlow(s, a, k, b);
      if b != a {
        OthersOk(s, s', a, b);
      }
    }
  }

  lemma TakeForOtherInv(s: State, a: nat, k: nat)
    requires Inv(s) && a < |s.procs| && s.procs[a].pc == Fill && Enabled(s, a, k)
    ensures Inv(TakeForOther(s, a, k))
  {
    assert ProcOk(s, a);
    var s' := TakeForOther(s, a, k);
    ViewFill(a, s.procs[a], |s.procs|, true, false, s.delivered[a], s.stash, s.cur, s.queues[a], s.pipe[..k]);
    TakeForOtherProc(s, a, k);
    PayloadInStream(s, k);
    TakePayloadStream(s, s', k, false);
    TransferActUndisturbed(s, a, k);
    forall b: nat | b < |s'.procs|
      ensures ProcOk(s', b) && FlowOk(s', b)
    {
      TakeForOtherFlow(s, a, k, b);
      if b != a {
        OthersOk(s, s', a, b);
      }
    }
  }

  lemma EnqueueStepInv(s: State, a: nat)
    requires Inv(s) && a < |s.procs| && s.procs[a].pc == Enqueue && Enabled(s, a, 0)
    ensures Inv(TransferAct(s, a, 0))
  {
    assert ProcOk(s, a);
    var s' := TransferAct(s, a, 0);
    EnqueueInv(s, a);
    TransferActUndisturbed(s, a, 0);
    forall b: nat | b < |s'.procs|
      ensures ProcOk(s', b) && FlowOk(s', b)
    {
      EnqueueFlow(s, a, b);
      if b != a {
        OthersOk(s, s', a, b);
      }
    }
  }

  lemma BeginInv(s: State, a: nat, size: nat)
    requires Inv(s) && Possible(s, CallRead(a, size))
    ensures Inv(Begin(s, a, size))
  {
    assert ProcOk(s, a);
    var s' := Begin(s, a, size);
    HeldSame(s, s', a, 0);
    forall b: nat | b < |s'.procs|
      ensures ProcOk(s', b) && FlowOk(s', b)
    {
      HeldSame(s, s', a, b);
      assert ProcOk(s, b) && FlowOk(s, b);
    }
  }

  lemma StartWriteStream(s: State, f: Frame)
    requires FramesOk(s) && StreamOk(s) && Possible(s, CallWrite(f))
    ensures FramesOk(StartWrite(s, f)) && StreamOk(StartWrite(s, f))
  {
    var s' := StartWrite(s, f);
    EncodeAllAppend(s.frames, f);
    assert HeldHeader(s') == HeldHeader(s);
    Regroup(HeldHeader(s) + s.pipe, s.pending, Encode(f));
    Regroup(CurRest(s.cur), EncodeAll(s.frames), Encode(f));
  }

  lemma StartWriteFlow(s: State, f: Frame, t: nat)
    requires Possible(s, CallWrite(f)) && t < |s.procs| && FlowOk(s, t)
    ensures FlowOk(StartWrite(s, f), t)
  {
    PayloadForAppend(s.frames, f, t);
    var base := s.delivered[t] + Unread(s.queues[t]) + HeldSpace(s, t) + CurFor(s.cur, t);
    if f.target == t {
      assert (base + PayloadFor(s.frames, t)) + f.data == base + (PayloadFor(s.frames, t) + f.data);
    } else {
      assert PayloadFor(s.frames, t) + [] == PayloadFor(s.frames, t);
    }
  }

  lemma StartWriteInv(s: State, f: Frame)
    requires Inv(s) && Possible(s, CallWrite(f))
    ensures Inv(StartWrite(s, f))
  {
    var s' := StartWrite(s, f);
    StartWriteStream(s, f);
    forall b: nat | b < |s'.procs|
      ensures ProcOk(s', b) && FlowOk(s', b)
    {
      assert ProcOk(s, b);
      StartWriteFlow(s, f, b);
    }
  }

  lemma WriteSomeInv(s: State, k: nat)
    requires Inv(s) && Possible(s, Put(k))
    ensures Inv(WriteSome(s, k))
  {
    var s' := WriteSome(s, k);
    assert s.pending == s.pending[..k] + s.pending[k..];
    assert HeldHeader(s') + s'.pipe + s'.pending == HeldHeader(s) + s.pipe + s.pending;
    forall b: nat | b < |s'.procs|
      ensures ProcOk(s', b) && FlowOk(s', b)
    {
      assert ProcOk(s, b) && FlowOk(s, b);
    }
  }

  lemma StepInv(s: State, e: Event)
    requires Inv(s) && Possible(s, e)
    ensures Inv(After(s, e))
  {
    match e
    case CallRead(a, size) => BeginInv(s, a, size);
    case CallWrite(f) => StartWriteInv(s, f);
    case Put(k) => WriteSomeInv(s, k);
    case Step(a, k, ok) =>
      var pc := s.procs[a].pc;
      if pc.ReadHeader? {
        TakeHeaderInv(s, a, k);
      } else if pc.ReadOwn? {
        TakeOwnInv(s, a, k);
      } else if pc.Fill? {
        TakeForOtherInv(s, a, k);
      } else if pc.Enqueue? {
        EnqueueStepInv(s, a);
      } else if IsQueuePc(pc) {
        QueueActInv(s, a);
      } else {
        HolderActInv(s, a, ok);
      }
  }

  lemma {:induction false} RunInv(tr: seq<State>, es: seq<Event>, i: nat)
    requires Run(tr, es) && i < |tr|
    ensures Inv(tr[i])
  {
    if i == 0 {
      InitInv(tr[0]);
    } else {
      RunInv(tr, es, i - 1);
      StepInv(tr[i - 1], es[i - 1]);
    }
  }

  // ------------------------------------------------------------ main theorems

  /** Stream conservation.  In every interleaving and for every target, what has been
      sent is what has been delivered, followed by what is unread in the queue, in
      message space, in the frame in transit and in the frames behind it: nothing is
      lost, duplicated, reordered or delivered to another target. */
  lemma StreamConservation(tr: seq<State>, es: seq<Event>, i: nat, t: nat)
    requires Run(tr, es) && i < |tr| && t < |tr[i].procs|
    ensures Shape(tr[i]) && FlowOk(tr[i], t)
    ensures tr[i].delivered[t] <= tr[i].sent[t]
  {
    RunInv(tr, es, i);
    var s := tr[i];
    assert FlowOk(s, t);
    FirstPart(s.delivered[t], Unread(s.queues[t]), HeldSpace(s, t), CurFor(s.cur, t), PayloadFor(s.frames, t));
  }

  lemma FirstPart<T>(d: seq<T>, u: seq<T>, h: seq<T>, c: seq<T>, f: seq<T>)
    ensures d <= d + u + h + c + f
  {
    assert d + u + h + c + f == d + (u + h + c + f);
  }

  lemma LastBytes<T>(sent: seq<T>, got: seq<T>, start: nat, buf: seq<T>)
    requires got <= sent && |got| == start + |buf| && got[start..] == buf
    ensures start + |buf| <= |sent| && sent[start..start + |buf|] == buf
  {
  }

  /** A read that returns hands its caller exactly the requested number of bytes, and
      they are the next bytes of the stream sent to it. */
  lemma ReadReturnsNextBytes(tr: seq<State>, es: seq<Event>, i: nat, a: nat)
    requires Run(tr, es) && i < |es| && a < |tr[i].procs| && a < |tr[i + 1].procs|
    requires tr[i].procs[a].pc != Idle && tr[i + 1].procs[a].pc == Idle
    ensures Shape(tr[i])
    ensures var p := tr[i].procs[a];
      |p.buf| == p.size && p.start + p.size <= |tr[i].sent[a]| && p.buf == tr[i].sent[a][p.start..p.start + p.size]
  {
    StreamConservation(tr, es, i, a);
    RunInv(tr, es, i);
    assert ProcOk(tr[i], a);
    var p := tr[i].procs[a];
    OnlyFullReadsReturn(tr[i], es[i], a);
    LastBytes(tr[i].sent[a], tr[i].delivered[a], p.start, p.buf);
  }

  lemma OnlyFullReadsReturn(s: State, e: Event, a: nat)
    requires Possible(s, e) && a < |s.procs| && a < |After(s, e).procs|
    requires s.procs[a].pc != Idle && After(s, e).procs[a].pc == Idle
    ensures |s.procs[a].buf| == s.procs[a].size
  {
    if e.Step? {
      if IsTransferPc(s.procs[e.a].pc) {
        TransferStaysBusy(s, e.a, e.k, a);
      } else if IsQueuePc(s.procs[e.a].pc) {
        QueueReturnsFull(s, e.a, a);
      } else {
        HolderStaysBusy(s, e.a, e.ok, a);
      }
    }
  }

  lemma QueueReturnsFull(s: State, b: nat, a: nat)
    requires Shape(s) && a < |s.procs| && b < |s.procs| && s.procs[a].pc != Idle
    ensures a < |QueueAct(s, b).procs|
    ensures QueueAct(s, b).procs[a].pc == Idle ==> |s.procs[a].buf| == s.procs[a].size
  {
  }

  lemma HolderStaysBusy(s: State, b: nat, ok: bool, a: nat)
    requires Shape(s) && a < |s.procs| && b < |s.procs| && s.procs[a].pc != Idle
    ensures a < |HolderAct(s, b, ok).procs| && HolderAct(s, b, ok).procs[a].pc != Idle
  {
  }

  lemma TransferStaysBusy(s: State, b: nat, k: nat, a: nat)
    requires Shape(s) && a < |s.procs| && b < |s.procs| && Enabled(s, b, k) && IsTransferPc(s.procs[b].pc)
    requires s.procs[a].pc != Idle
    ensures a < |TransferAct(s, b, k).procs| && TransferAct(s, b, k).procs[a].pc != Idle
  {
  }

  /** The locks do their job: at most one process is in the pipe-lock section, at most
      one in the queue-lock section, and the assert in set_polled_data never fails. */
  lemma SectionsAreExclusive(tr: seq<State>, es: seq<Event>, i: nat, a: nat, b: nat)
    requires Run(tr, es) && i < |tr| && a < |tr[i].procs| && b < |tr[i].procs|
    ensures HoldsPipe(tr[i].procs[a].pc) && HoldsPipe(tr[i].procs[b].pc) ==> a == b
    ensures HoldsQueue(tr[i].procs[a].pc) && HoldsQueue(tr[i].procs[b].pc) ==> a == b
    ensures tr[i].procs[a].pc == SetStash ==> tr[i].stash.None?
  {
    RunInv(tr, es, i);
    assert ProcOk(tr[i], a) && ProcOk(tr[i], b);
  }
}
