/** The biter transport (src/biter/demultiplex.c, client_queue.c, biterc.c): many
    reader processes share one pipe.  Whoever holds the pipe lock pulls frames off the
    pipe, keeps its own bytes, and parks the bytes of others in per-target queues in
    the shared heap; when the heap is full it stashes the frame header for the next
    reader.  A step is one access to shared state by one process, or one read(2) or
    write(2) of any number of bytes, so a run is any interleaving with any partial
    transfers.  Process t reads the messages for target t. */
module Demultiplex {
  import opened Collections
  import opened Bytes

  // msg_header_t
  datatype Header = Header(size: nat, target: nat)

  datatype Frame = Frame(target: nat, data: seq<Byte>)

  // message_t: a queued message of which the first bytesRead bytes are consumed.
  datatype Message = Message(data: seq<Byte>, bytesRead: nat)

  // The next action of a process inside demultiplex_read.  The flag locked says
  // whether the queue is drained with the pipe lock held.
  datatype Pc =
    | Idle
    | HasMessage(locked: bool)     // dequeue_message: unlocked look at the queue
    | TakeQueueLock(locked: bool)
    | Dequeue(locked: bool)        // one turn of the copy loop
    | Unblock(locked: bool)        // rm_message: set_heap_unblocked
    | ReleaseQueueLock(locked: bool)
    | TestPipeLock
    | CheckBlocked                 // is_heap_blocked
    | CheckStash                   // get_polled_data, which asserts that there is one
    | NextFrame                    // has_polled_data / get / clear
    | ReadHeader                   // reliable_read of a header
    | GotHeader
    | ReadOwn(rem: nat)            // reliable_read into the caller's buffer
    | Allocate                     // get_message_space
    | SetStash                     // out of heap: set_polled_data
    | SetBlocked                   // set_heap_blocked
    | ClearBlocked                 // set_heap_unblocked
    | Fill                         // reliable_read into the message space
    | EnqueueLock
    | Enqueue
    | EnqueueUnlock
    | ReleasePipeLock
    | Aborted                      // an assert has failed

  // size and buf are the request and what it has received so far; start is the
  // length of the target's delivered stream when the call began.
  datatype Process = Process(
    pc: Pc, size: nat, buf: seq<Byte>, start: nat,
    header: Header, headerBytes: seq<Byte>, space: seq<Byte>)

  /** pipe: bytes written and not yet read; pending: bytes of the frame whose writer
      holds the write lock, not yet written.
      cur and frames describe what is in transit: cur is the frame whose header has
      been read, with the payload bytes not yet read; frames are the frames whose
      header has not been read completely.
      sent and delivered record, per target, the bytes handed to demultiplex_write and
      the bytes placed in callers' buffers. */
  datatype State = State(
    pipe: seq<Byte>, pending: seq<Byte>,
    pipeLock: Option<nat>, queueLock: Option<nat>,
    stash: Option<Header>, heapBlocked: bool,
    queues: seq<seq<Message>>, procs: seq<Process>,
    cur: Option<Frame>, frames: seq<Frame>,
    sent: seq<seq<Byte>>, delivered: seq<seq<Byte>>)

  // ------------------------------------------------------------------ framing

  const HEADER_SIZE: nat := 8

  function EncodeHeader(h: Header): (b: seq<Byte>)
    requires h.size < TWO_32 && h.target < TWO_32
    ensures |b| == HEADER_SIZE
  {
    EncodeU32(h.size) + EncodeU32(h.target)
  }

  function DecodeHeader(b: seq<Byte>): Header
    requires |b| == HEADER_SIZE
  {
    Header(DecodeU32(b[..4]), DecodeU32(b[4..]))
  }

  lemma HeaderRoundTrip(h: Header)
    requires h.size < TWO_32 && h.target < TWO_32
    ensures DecodeHeader(EncodeHeader(h)) == h
  {
    U32RoundTrip(h.size);
    U32RoundTrip(h.target);
    assert EncodeHeader(h)[..4] == EncodeU32(h.size);
    assert EncodeHeader(h)[4..] == EncodeU32(h.target);
  }

  predicate GoodFrame(f: Frame)
  {
    0 < |f.data| < TWO_32 && f.target < TWO_32
  }

  function Encode(f: Frame): seq<Byte>
    requires GoodFrame(f)
  {
    EncodeHeader(Header(|f.data|, f.target)) + f.data
  }

  predicate GoodFrames(fs: seq<Frame>)
  {
    forall i :: 0 <= i < |fs| ==> GoodFrame(fs[i])
  }

  function EncodeAll(fs: seq<Frame>): seq<Byte>
    requires GoodFrames(fs)
  {
    if fs == [] then [] else Encode(fs[0]) + EncodeAll(fs[1..])
  }

  // The bytes for target t in a list of frames.
  function PayloadFor(fs: seq<Frame>, t: nat): seq<Byte>
  {
    if fs == [] then []
    else (if fs[0].target == t then fs[0].data else []) + PayloadFor(fs[1..], t)
  }

  lemma {:induction false} EncodeAllAppend(fs: seq<Frame>, f: Frame)
    requires GoodFrames(fs) && GoodFrame(f)
    ensures EncodeAll(fs + [f]) == EncodeAll(fs) + Encode(f)
  {
    if fs == [] {
      assert EncodeAll([f][1..]) == [];
      assert [] + [f] == [f];
    } else {
      assert (fs + [f])[0] == fs[0] && (fs + [f])[1..] == fs[1..] + [f];
      EncodeAllAppend(fs[1..], f);
    }
  }

  lemma {:induction false} PayloadForAppend(fs: seq<Frame>, f: Frame, t: nat)
    ensures PayloadFor(fs + [f], t) == PayloadFor(fs, t) + if f.target == t then f.data else []
  {
    if fs == [] {
      assert PayloadFor([f][1..], t) == [];
      assert [] + [f] == [f];
    } else {
      assert (fs + [f])[0] == fs[0] && (fs + [f])[1..] == fs[1..] + [f];
      PayloadForAppend(fs[1..], f, t);
    }
  }

  // ------------------------------------------------------------------- queues

  predicate GoodMessage(m: Message)
  {
    m.bytesRead < |m.data|
  }

  predicate GoodQueue(q: seq<Message>)
  {
    forall i :: 0 <= i < |q| ==> GoodMessage(q[i])
  }

  // The bytes of a queue that have not been consumed.
  function Unread(q: seq<Message>): seq<Byte>
    requires GoodQueue(q)
  {
    if q == [] then [] else q[0].data[q[0].bytesRead..] + Unread(q[1..])
  }

  lemma {:induction false} UnreadAppend(q: seq<Message>, m: Message)
    requires GoodQueue(q) && GoodMessage(m)
    ensures Unread(q + [m]) == Unread(q) + m.data[m.bytesRead..]
  {
    if q == [] {
      assert Unread([m][1..]) == [];
      assert [] + [m] == [m];
    } else {
      assert (q + [m])[0] == q[0] && (q + [m])[1..] == q[1..] + [m];
      UnreadAppend(q[1..], m);
    }
  }

  // One turn of the copy loop of dequeue_message, for a caller that still wants
  // want bytes: what it copies, and the queue afterwards.
  function Copied(q: seq<Message>, want: nat): seq<Byte>
    requires GoodQueue(q) && q != []
  {
    var m := q[0];
    var avail := |m.data| - m.bytesRead;
    if avail > want then m.data[m.bytesRead..m.bytesRead + want] else m.data[m.bytesRead..]
  }

  function AfterCopy(q: seq<Message>, want: nat): (q': seq<Message>)
    requires GoodQueue(q) && q != []
    ensures GoodQueue(q')
  {
    var m := q[0];
    var avail := |m.data| - m.bytesRead;
    if avail > want then q[0 := m.(bytesRead := m.bytesRead + want)] else q[1..]
  }

  lemma CopyConserves(q: seq<Message>, want: nat)
    requires GoodQueue(q) && q != []
    ensures Copied(q, want) + Unread(AfterCopy(q, want)) == Unread(q)
    ensures |Copied(q, want)| <= want
    ensures 0 < want ==> 0 < |Copied(q, want)|
  {
    assert GoodMessage(q[0]);
    if |q[0].data| - q[0].bytesRead > want {
      PartCopied(q, want);
    }
  }

  lemma PartCopied(q: seq<Message>, want: nat)
    requires GoodQueue(q) && q != [] && |q[0].data| - q[0].bytesRead > want
    ensures Copied(q, want) + Unread(AfterCopy(q, want)) == Unread(q)
  {
    var m := q[0];
    MarkedRead(q, m.(bytesRead := m.bytesRead + want));
    CutTwice(m.data, m.bytesRead, m.bytesRead + want, Unread(q[1..]));
  }

  lemma MarkedRead(q: seq<Message>, m: Message)
    requires GoodQueue(q) && q != [] && GoodMessage(m)
    ensures GoodQueue(q[0 := m]) && Unread(q[0 := m]) == m.data[m.bytesRead..] + Unread(q[1..])
  {
    assert q[0 := m][1..] == q[1..];
  }

  lemma CutTwice<T>(d: seq<T>, i: nat, j: nat, x: seq<T>)
    requires i <= j <= |d|
    ensures d[i..j] + (d[j..] + x) == d[i..] + x
  {
  }

  // ------------------------------------------------------------------ actions

  predicate Shape(s: State)
  {
    && |s.queues| == |s.procs| == |s.sent| == |s.delivered|
    && forall t :: 0 <= t < |s.queues| ==> GoodQueue(s.queues[t])
  }

  function SetProc(s: State, a: nat, p: Process): State
    requires a < |s.procs|
  {
    s.(procs := s.procs[a := p])
  }

  // Place bytes in the caller's buffer.
  function Deliver(s: State, a: nat, p: Process, bytes: seq<Byte>): State
    requires a < |s.procs| && a < |s.delivered|
  {
    s.(procs := s.procs[a := p.(buf := p.buf + bytes)], delivered := s.delivered[a := s.delivered[a] + bytes])
  }

  function Wanted(p: Process): nat
  {
    if |p.buf| < p.size then p.size - |p.buf| else 0
  }

  // The turn of the inner loop is over.
  function LoopPc(p: Process): Pc
  {
    if |p.buf| < p.size then NextFrame else ReleasePipeLock
  }

  predicate Enabled(s: State, a: nat, k: nat)
    requires Shape(s) && a < |s.procs|
  {
    var p := s.procs[a];
    match p.pc
    case Idle => false
    case Aborted => false
    case TakeQueueLock(_) => s.queueLock.None?
    case EnqueueLock => s.queueLock.None?
    case Enqueue => p.header.target < |s.queues| && p.space != []
    case ReadHeader => 1 <= k <= |s.pipe| && |p.headerBytes| + k <= HEADER_SIZE
    case ReadOwn(rem) => 1 <= k <= |s.pipe| && k <= rem && k <= p.header.size
    case Fill => 1 <= k <= |s.pipe| && |p.space| + k <= p.header.size
    case _ => true
  }

  // Actions on the process's own queue and on the two locks.
  function QueueAct(s: State, a: nat): State
    requires Shape(s) && a < |s.procs|
  {
    var p := s.procs[a];
    match p.pc
    case HasMessage(locked) =>
      SetProc(s, a, p.(pc := if s.queues[a] != [] then TakeQueueLock(locked) else if locked then CheckBlocked else TestPipeLock))
    case TakeQueueLock(locked) =>
      SetProc(s.(queueLock := Some(a)), a, p.(pc := Dequeue(locked)))
    case Dequeue(locked) =>
      if s.queues[a] == [] || |p.buf| >= p.size then SetProc(s, a, p.(pc := ReleaseQueueLock(locked)))
      else
        var want := Wanted(p);
        var whole := |s.queues[a][0].data| - s.queues[a][0].bytesRead <= want;
        Deliver(s.(queues := s.queues[a := AfterCopy(s.queues[a], want)]), a,
          p.(pc := if whole then Unblock(locked) else p.pc), Copied(s.queues[a], want))
    case Unblock(locked) =>
      SetProc(s.(heapBlocked := false), a, p.(pc := Dequeue(locked)))
    case ReleaseQueueLock(locked) =>
      SetProc(s.(queueLock := None), a, p.(pc :=
        if |p.buf| == p.size then (if locked then ReleasePipeLock else Idle)
        else if locked then CheckBlocked
        else TestPipeLock))
    case TestPipeLock =>
      if s.pipeLock.None? then SetProc(s.(pipeLock := Some(a)), a, p.(pc := HasMessage(true)))
      else SetProc(s, a, p.(pc := HasMessage(false)))
    case ReleasePipeLock =>
      SetProc(s.(pipeLock := None), a, p.(pc := if |p.buf| == p.size then Idle else HasMessage(false)))
    case _ => s
  }

  // Actions under the pipe lock that move no payload.
  function HolderAct(s: State, a: nat, ok: bool): State
    requires Shape(s) && a < |s.procs|
  {
    var p := s.procs[a];
    match p.pc
    case CheckBlocked =>
      SetProc(s, a, p.(pc := if s.heapBlocked then CheckStash else NextFrame))
    case CheckStash =>
      SetProc(s, a, p.(pc := if s.stash.None? then Aborted else if s.stash.value.target != a then ReleasePipeLock else NextFrame))
    case NextFrame =>
      if s.stash.None? then SetProc(s, a, p.(pc := ReadHeader, headerBytes := []))
      else SetProc(s.(stash := None), a, p.(pc := GotHeader, header := s.stash.value))
    case GotHeader =>
      SetProc(s, a, p.(pc :=
        if p.header.target == a then ReadOwn(if p.header.size > Wanted(p) then Wanted(p) else p.header.size)
        else if p.header.size > 0 then Allocate
        else LoopPc(p)))
    case Allocate =>
      SetProc(s, a, p.(pc := if ok then ClearBlocked else SetStash))
    case SetStash =>
      SetProc(s.(stash := Some(p.header)), a, p.(pc := SetBlocked))
    case SetBlocked =>
      SetProc(s.(heapBlocked := true), a, p.(pc := ReleasePipeLock))
    case ClearBlocked =>
      SetProc(s.(heapBlocked := false), a, p.(pc := Fill, space := []))
    case EnqueueLock =>
      SetProc(s.(queueLock := Some(a)), a, p.(pc := Enqueue))
    case EnqueueUnlock =>
      SetProc(s.(queueLock := None), a, p.(pc := LoopPc(p)))
    case _ => s
  }

  // Reads of k bytes from the pipe, and the hand-over of a message to its queue.
  function TransferAct(s: State, a: nat, k: nat): State
    requires Shape(s) && a < |s.procs| && Enabled(s, a, k)
  {
    var p := s.procs[a];
    match p.pc
    case ReadHeader => TakeHeader(s, a, k)
    case ReadOwn(rem) => TakeOwn(s, a, k)
    case Fill => TakeForOther(s, a, k)
    case Enqueue =>
      var t := p.header.target;
      SetProc(s.(queues := s.queues[t := s.queues[t] + [Message(p.space, 0)]], cur := None), a, p.(pc := EnqueueUnlock, space := []))
    case _ => s
  }

  function TakeHeader(s: State, a: nat, k: nat): State
    requires Shape(s) && a < |s.procs| && s.procs[a].pc == ReadHeader && Enabled(s, a, k)
  {
    var p := s.procs[a];
    var got := p.headerBytes + s.pipe[..k];
    if |got| < HEADER_SIZE then
      SetProc(s.(pipe := s.pipe[k..]), a, p.(headerBytes := got))
    else
      SetProc(
        s.(pipe := s.pipe[k..],
           cur := if s.frames == [] then None else Some(s.frames[0]),
           frames := if s.frames == [] then [] else s.frames[1..]),
        a, p.(pc := GotHeader, headerBytes := [], header := DecodeHeader(got)))
  }

  function TakeOwn(s: State, a: nat, k: nat): State
    requires Shape(s) && a < |s.procs| && s.procs[a].pc.ReadOwn? && Enabled(s, a, k)
  {
    var p := s.procs[a];
    var left := p.header.size - k;
    var p' := p.(header := p.header.(size := left), buf := p.buf + s.pipe[..k]);
    var s' := s.(pipe := s.pipe[k..], cur := AfterRead(s.cur, k, left == 0), delivered := s.delivered[a := s.delivered[a] + s.pipe[..k]]);
    SetProc(s', a, p'.(pc :=
      if k < p.pc.rem then ReadOwn(p.pc.rem - k)
      else if left > 0 then Allocate
      else LoopPc(p')))
  }

  function TakeForOther(s: State, a: nat, k: nat): State
    requires Shape(s) && a < |s.procs| && s.procs[a].pc == Fill && Enabled(s, a, k)
  {
    var p := s.procs[a];
    SetProc(s.(pipe := s.pipe[k..], cur := AfterRead(s.cur, k, false)), a,
      p.(space := p.space + s.pipe[..k], pc := if |p.space| + k < p.header.size then Fill else EnqueueLock))
  }

  // The frame in hand after k more payload bytes have been read.
  function AfterRead(cur: Option<Frame>, k: nat, done: bool): Option<Frame>
  {
    if done || cur.None? || k > |cur.value.data| then None
    else Some(cur.value.(data := cur.value.data[k..]))
  }

  predicate IsQueuePc(pc: Pc)
  {
    pc.HasMessage? || pc.TakeQueueLock? || pc.Dequeue? || pc.Unblock? || pc.ReleaseQueueLock? || pc.TestPipeLock? || pc.ReleasePipeLock?
  }

  predicate IsTransferPc(pc: Pc)
  {
    pc.ReadHeader? || pc.ReadOwn? || pc.Fill? || pc.Enqueue?
  }

  function Act(s: State, a: nat, k: nat, ok: bool): State
    requires Shape(s) && a < |s.procs| && Enabled(s, a, k)
  {
    var pc := s.procs[a].pc;
    if IsTransferPc(pc) then TransferAct(s, a, k)
    else if IsQueuePc(pc) then QueueAct(s, a)
    else HolderAct(s, a, ok)
  }

  // A process calls demultiplex_read for size bytes.
  function Begin(s: State, a: nat, size: nat): State
    requires Shape(s) && a < |s.procs|
  {
    SetProc(s, a, s.procs[a].(pc := HasMessage(false), size := size, buf := [], start := |s.delivered[a]|))
  }

  // A writer takes the write lock and starts to write a frame.
  function StartWrite(s: State, f: Frame): State
    requires Shape(s) && f.target < |s.sent| && GoodFrame(f)
  {
    s.(pending := s.pending + Encode(f), frames := s.frames + [f],
       sent := s.sent[f.target := s.sent[f.target] + f.data])
  }

  // The writer's next write(2) accepts k bytes.
  function WriteSome(s: State, k: nat): State
    requires k <= |s.pending|
  {
    s.(pipe := s.pipe + s.pending[..k], pending := s.pending[k..])
  }

  datatype Event =
    | CallRead(a: nat, size: nat)
    | CallWrite(f: Frame)
    | Put(k: nat)
    | Step(a: nat, k: nat, ok: bool)

  predicate Possible(s: State, e: Event)
  {
    && Shape(s)
    && match e
       case CallRead(a, size) => a < |s.procs| && s.procs[a].pc == Idle && size > 0
       case CallWrite(f) => f.target < |s.procs| && GoodFrame(f) && s.pending == []
       case Put(k) => 1 <= k <= |s.pending|
       case Step(a, k, ok) => a < |s.procs| && Enabled(s, a, k)
  }

  function After(s: State, e: Event): State
    requires Possible(s, e)
  {
    match e
    case CallRead(a, size) => Begin(s, a, size)
    case CallWrite(f) => StartWrite(s, f)
    case Put(k) => WriteSome(s, k)
    case Step(a, k, ok) => Act(s, a, k, ok)
  }

  predicate Init(s: State)
  {
    && |s.queues| == |s.procs| == |s.sent| == |s.delivered|
    && s.pipe == [] && s.pending == [] && s.pipeLock.None? && s.queueLock.None?
    && s.stash.None? && !s.heapBlocked && s.cur.None? && s.frames == []
    && forall t :: 0 <= t < |s.procs| ==>
         s.queues[t] == [] && s.sent[t] == [] && s.delivered[t] == []
         && s.procs[t].pc == Idle && s.procs[t].buf == [] && s.procs[t].headerBytes == [] && s.procs[t].space == []
  }

  ghost predicate Run(tr: seq<State>, es: seq<Event>)
  {
    && |tr| == |es| + 1
    && Init(tr[0])
    && forall i :: 0 <= i < |es| ==> Possible(tr[i], es[i]) && tr[i + 1] == After(tr[i], es[i])
  }
}
