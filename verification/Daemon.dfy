/** The daemon's side of the biter transport (src/biter/server_queue.c, biterd.c, and
    demultiplex.c as the daemon runs it).  The daemon is a single thread: its locks are
    no-ops and its message space never runs out. */
module Daemon {
  import opened Collections
  import opened Bytes
  import opened Demultiplex

  // biterd_session_t, as far as message queues are concerned.
  datatype Session = Session(
    queues: seq<seq<Message>>,
    lastCachedDataAvail: nat,
    localBytesCached: nat)

  // ------------------------------------------------------------- byte counts

  function QueueBytes(q: seq<Message>): nat
  {
    if q == [] then 0 else |q[0].data| + QueueBytes(q[1..])
  }

  function SessionBytes(qs: seq<seq<Message>>): nat
  {
    if qs == [] then 0 else QueueBytes(qs[0]) + SessionBytes(qs[1..])
  }

  function AllBytes(ss: seq<Session>): nat
  {
    if ss == [] then 0 else ss[0].localBytesCached + AllBytes(ss[1..])
  }

  lemma {:induction false} QueueBytesAppend(q: seq<Message>, m: Message)
    ensures QueueBytes(q + [m]) == QueueBytes(q) + |m.data|
  {
    if q == [] {
      assert q + [m] == [m];
    } else {
      assert (q + [m])[1..] == q[1..] + [m];
      QueueBytesAppend(q[1..], m);
    }
  }

  lemma {:induction false} SessionBytesUpdate(qs: seq<seq<Message>>, i: nat, q: seq<Message>)
    requires i < |qs|
    ensures SessionBytes(qs[i := q]) == SessionBytes(qs) - QueueBytes(qs[i]) + QueueBytes(q)
  {
    var qs' := qs[i := q];
    if i == 0 {
      assert qs'[1..] == qs[1..];
    } else {
      assert qs'[1..] == qs[1..][i - 1 := q];
      SessionBytesUpdate(qs[1..], i - 1, q);
    }
  }

  lemma {:induction false} AllBytesUpdate(ss: seq<Session>, i: nat, s: Session)
    requires i < |ss|
    ensures AllBytes(ss[i := s]) == AllBytes(ss) - ss[i].localBytesCached + s.localBytesCached
    ensures ss[i].localBytesCached <= AllBytes(ss)
  {
    var ss' := ss[i := s];
    if i == 0 {
      assert ss'[1..] == ss[1..];
    } else {
      assert ss'[1..] == ss[1..][i - 1 := s];
      AllBytesUpdate(ss[1..], i - 1, s);
    }
  }

  predicate GoodQueues(qs: seq<seq<Message>>)
  {
    forall i :: 0 <= i < |qs| ==> GoodQueue(qs[i])
  }

  // A positive byte count means that some client has a message, and the other way round.
  lemma {:induction false} BytesMeanMessage(qs: seq<seq<Message>>)
    requires GoodQueues(qs)
    ensures SessionBytes(qs) > 0 <==> exists i :: 0 <= i < |qs| && qs[i] != []
  {
    if qs != [] {
      BytesMeanMessage(qs[1..]);
      assert qs[0] != [] ==> QueueBytes(qs[0]) >= |qs[0][0].data| > 0;
      if exists i :: 0 <= i < |qs| && qs[i] != [] {
        var i :| 0 <= i < |qs| && qs[i] != [];
        if i > 0 {
          assert qs[1..][i - 1] == qs[i];
        }
      }
      if exists i :: 0 <= i < |qs[1..]| && qs[1..][i] != [] {
        var i :| 0 <= i < |qs[1..]| && qs[1..][i] != [];
        assert qs[i + 1] != [];
      }
    }
  }

  lemma {:induction false} NoBytesAnywhere(ss: seq<Session>)
    ensures AllBytes(ss) == 0 <==> forall i :: 0 <= i < |ss| ==> ss[i].localBytesCached == 0
  {
    if ss != [] {
      NoBytesAnywhere(ss[1..]);
      if AllBytes(ss) == 0 {
        forall i | 0 <= i < |ss|
          ensures ss[i].localBytesCached == 0
        {
          if i > 0 {
            assert ss[1..][i - 1] == ss[i];
          }
        }
      } else if ss[0].localBytesCached == 0 {
        var i :| 0 <= i < |ss[1..]| && ss[1..][i].localBytesCached != 0;
        assert ss[i + 1].localBytesCached != 0;
      }
    }
  }

  // ------------------------------------------------------------------ one turn

  // How many bytes of a message go to a caller that wants so many.
  function Count(m: Message, want: nat): nat
    requires m.bytesRead <= |m.data|
  {
    if |m.data| - m.bytesRead > want then want else |m.data| - m.bytesRead
  }

  // A queue whose first message has been read up to newval, and removed if that is all.
  function Left(q: seq<Message>, newval: nat): seq<Message>
    requires q != []
  {
    if newval < |q[0].data| then q[0 := q[0].(bytesRead := newval)] else q[1..]
  }

  lemma TurnConserves(q: seq<Message>, want: nat)
    requires GoodQueue(q) && q != [] && want > 0
    ensures GoodMessage(q[0])
    ensures var m := q[0];
      var q' := Left(q, m.bytesRead + Count(m, want));
      && 0 < Count(m, want) <= want && GoodQueue(q')
      && m.data[m.bytesRead..m.bytesRead + Count(m, want)] + Unread(q') == Unread(q)
  {
    assert GoodMessage(q[0]);
    CopyConserves(q, want);
    assert Left(q, q[0].bytesRead + Count(q[0], want)) == AfterCopy(q, want);
  }

  // ------------------------------------------------------------------- daemon

  class Biterd {
    var sessions: seq<Session>     // sessions[0 .. max_session)
    var bytesCached: nat
    var auxPipe: seq<char>         // unread bytes of the auxiliary pipe
    var lastSession: nat           // static cursor of biterd_get_session_proc_w_aux_data

    /** What the source relies on: the counters add up, the auxiliary pipe is readable
        exactly while something is cached, and the scan cursors are in range; no queued
        message is used up. */
    ghost predicate Valid()
      reads this
    {
      Accounted() && forall i :: 0 <= i < |sessions| ==> GoodQueues(sessions[i].queues)
    }

    ghost predicate Accounted()
      reads this
    {
      && (forall i :: 0 <= i < |sessions| ==> SessionSums(sessions[i]))
      && bytesCached == AllBytes(sessions)
      && auxPipe == (if bytesCached > 0 then ['b'] else [])
      && (lastSession < |sessions| || lastSession == 0)
    }

    static predicate SessionSums(s: Session)
    {
      s.localBytesCached == SessionBytes(s.queues) && s.lastCachedDataAvail <= |s.queues|
    }

    // As Valid, but the first message of one queue may be used up; it is removed next.
    ghost predicate ValidBut(sid: nat, forProc: nat)
      reads this
    {
      && Accounted() && sid < |sessions| && forProc < |sessions[sid].queues|
      && (forall i :: 0 <= i < |sessions| && i != sid ==> GoodQueues(sessions[i].queues))
      && GoodBut(sessions[sid].queues, forProc)
    }

    static predicate GoodBut(qs: seq<seq<Message>>, p: nat)
      requires p < |qs|
    {
      && qs[p] != [] && qs[p][0].data != [] && GoodQueue(qs[p][1..])
      && forall i :: 0 <= i < |qs| && i != p ==> GoodQueue(qs[i])
    }

    // In a valid state every non-empty queue is such a queue.
    lemma ValidIsValidBut(sid: nat, forProc: nat)
      requires Valid() && sid < |sessions| && forProc < |sessions[sid].queues| && sessions[sid].queues[forProc] != []
      ensures ValidBut(sid, forProc)
    {
      assert GoodQueue(sessions[sid].queues[forProc]) && GoodMessage(sessions[sid].queues[forProc][0]);
    }

    constructor (clients: seq<nat>)
      ensures Valid()
      ensures |sessions| == |clients|
      ensures forall i :: 0 <= i < |clients| ==> sessions[i] == Session(seq(clients[i], _ => []), 0, 0)
    {
      sessions := seq(|clients|, i requires 0 <= i < |clients| => Session(seq(clients[i], _ => []), 0, 0));
      bytesCached := 0;
      auxPipe := [];
      lastSession := 0;
      new;
      NoBytesAnywhere(sessions);
      forall i | 0 <= i < |sessions|
        ensures SessionSums(sessions[i])
      {
        BytesMeanMessage(sessions[i].queues);
      }
    }

    method MarkBytesCached(bytec: nat, sid: nat)
      requires sid < |sessions|
      requires auxPipe == (if bytesCached > 0 then ['b'] else [])
      modifies this`bytesCached, this`auxPipe, this`sessions
      ensures bytesCached == old(bytesCached) + bytec
      ensures auxPipe == (if bytesCached > 0 then ['b'] else [])
      ensures sessions == old(sessions)[sid := old(sessions)[sid].(localBytesCached := old(sessions)[sid].localBytesCached + bytec)]
    {
      if bytec == 0 {
        assert sessions[sid := sessions[sid].(localBytesCached := sessions[sid].localBytesCached + 0)] == sessions;
        return;
      }
      if bytesCached == 0 {
        auxPipe := auxPipe + ['b'];
      }
      bytesCached := bytesCached + bytec;
      sessions := sessions[sid := sessions[sid].(localBytesCached := sessions[sid].localBytesCached + bytec)];
    }

    // The two asserts of the source are its preconditions; a read of an empty pipe
    // would block, so the pipe must hold a byte when the last cached byte goes.
    method ClearBytesCached(bytec: nat, sid: nat)
      requires sid < |sessions|
      requires 0 < bytec <= bytesCached && bytec <= sessions[sid].localBytesCached
      requires auxPipe == ['b']
      modifies this`bytesCached, this`auxPipe, this`sessions
      ensures bytesCached == old(bytesCached) - bytec
      ensures auxPipe == (if bytesCached > 0 then ['b'] else [])
      ensures sessions == old(sessions)[sid := old(sessions)[sid].(localBytesCached := old(sessions)[sid].localBytesCached - bytec)]
    {
      bytesCached := bytesCached - bytec;
      sessions := sessions[sid := sessions[sid].(localBytesCached := sessions[sid].localBytesCached - bytec)];
      if bytesCached == 0 {
        auxPipe := auxPipe[1..];
      }
    }

    method EnqueueMessage(sid: nat, forProc: nat, data: seq<Byte>)
      requires Valid() && sid < |sessions| && forProc < |sessions[sid].queues| && data != []
      modifies this
      ensures Valid() && lastSession == old(lastSession)
      ensures var s := old(sessions)[sid];
        sessions == old(sessions)[sid := s.(
          queues := s.queues[forProc := s.queues[forProc] + [Message(data, 0)]],
          localBytesCached := s.localBytesCached + |data|)]
    {
      var s := sessions[sid];
      var m := Message(data, 0);
      sessions := sessions[sid := s.(queues := s.queues[forProc := s.queues[forProc] + [m]])];
      MarkBytesCached(|data|, sid);
      SessionBytesUpdate(s.queues, forProc, s.queues[forProc] + [m]);
      QueueBytesAppend(s.queues[forProc], m);
      assert sessions == old(sessions)[sid := sessions[sid]];
      AllBytesUpdate(old(sessions), sid, sessions[sid]);
    }

    /** rm_message: whether or not the first message has been used up. */
    method RmMessage(sid: nat, forProc: nat)
      requires ValidBut(sid, forProc)
      modifies this
      ensures Valid() && lastSession == old(lastSession)
      ensures var s := old(sessions)[sid];
        var size := |s.queues[forProc][0].data|;
        size <= s.localBytesCached &&
        sessions == old(sessions)[sid := s.(
          queues := s.queues[forProc := s.queues[forProc][1..]],
          localBytesCached := s.localBytesCached - size)]
    {
      var s := sessions[sid];
      var m := s.queues[forProc][0];
      SessionBytesUpdate(s.queues, forProc, s.queues[forProc][1..]);
      AllBytesUpdate(sessions, sid, s);
      sessions := sessions[sid := s.(queues := s.queues[forProc := s.queues[forProc][1..]])];
      ClearBytesCached(|m.data|, sid);
      assert sessions == old(sessions)[sid := sessions[sid]];
      AllBytesUpdate(old(sessions), sid, sessions[sid]);
    }

    // Is the queue of this client non-empty?
    predicate HasMessage(sid: nat, forProc: nat)
      requires sid < |sessions| && forProc < |sessions[sid].queues|
      reads this
    {
      sessions[sid].queues[forProc] != []
    }

    // What is unread for a client.
    ghost function Pending(sid: nat, forProc: nat): seq<Byte>
      requires sid < |sessions| && forProc < |sessions[sid].queues| && GoodQueues(sessions[sid].queues)
      reads this
    {
      Unread(sessions[sid].queues[forProc])
    }

    /** update_bytes_read: up to the size of the message, which is then used up. */
    method UpdateBytesRead(sid: nat, forProc: nat, newval: nat)
      requires ValidBut(sid, forProc) && newval <= |sessions[sid].queues[forProc][0].data|
      modifies this
      ensures ValidBut(sid, forProc) && bytesCached == old(bytesCached) && auxPipe == old(auxPipe) && lastSession == old(lastSession)
      ensures newval < |old(sessions)[sid].queues[forProc][0].data| ==> Valid()
      ensures sessions == old(sessions)[sid := MarkRead(old(sessions)[sid], forProc, newval)]
    {
      var s := sessions[sid];
      var s' := MarkRead(s, forProc, newval);
      sessions := sessions[sid := s'];
      MarkedKeepsBytes(s, forProc, newval);
      AllBytesUpdate(old(sessions), sid, s');
    }

    static function MarkRead(s: Session, forProc: nat, newval: nat): Session
      requires forProc < |s.queues| && s.queues[forProc] != []
    {
      var q := s.queues[forProc];
      s.(queues := s.queues[forProc := q[0 := q[0].(bytesRead := newval)]])
    }

    static lemma MarkedKeepsBytes(s: Session, forProc: nat, newval: nat)
      requires forProc < |s.queues| && GoodBut(s.queues, forProc)
      ensures var s' := MarkRead(s, forProc, newval);
        && SessionBytes(s'.queues) == SessionBytes(s.queues) && GoodBut(s'.queues, forProc)
        && (newval < |s.queues[forProc][0].data| ==> GoodQueues(s'.queues))
    {
      var q := s.queues[forProc];
      var q' := q[0 := q[0].(bytesRead := newval)];
      assert q'[1..] == q[1..];
      SessionBytesUpdate(s.queues, forProc, q');
      if newval < |q[0].data| {
        forall i | 0 <= i < |q'| ensures GoodMessage(q'[i]) {
          if i > 0 {
            assert q'[i] == q[1..][i - 1];
          }
        }
      }
    }

    /** dequeue_message: hands out up to want bytes of a client's queue, in order, and
        leaves the rest; it stops short only when the queue is empty. */
    method DequeueMessage(sid: nat, forProc: nat, want: nat) returns (data: seq<Byte>)
      requires Valid() && sid < |sessions| && forProc < |sessions[sid].queues|
      modifies this
      ensures Valid() && |sessions| == |old(sessions)| && lastSession == old(lastSession)
      ensures OnlyQueueChanged(old(sessions), sessions, sid, forProc)
      ensures data + Pending(sid, forProc) == old(Pending(sid, forProc))
      ensures |data| <= want && (|data| < want ==> !HasMessage(sid, forProc))
    {
      data := [];
      while HasMessage(sid, forProc) && |data| < want
        invariant Valid() && |sessions| == |old(sessions)| && lastSession == old(lastSession)
        invariant OnlyQueueChanged(old(sessions), sessions, sid, forProc)
        invariant data + Pending(sid, forProc) == old(Pending(sid, forProc))
        invariant |data| <= want
        decreases |sessions[sid].queues[forProc]|, want - |data|
      {
        var bytes := CopyOnce(sid, forProc, want - |data|);
        Regroup(data, bytes, Pending(sid, forProc));
        data := data + bytes;
      }
    }

    // One turn of that loop: part of the first message, or all that is left of it.
    method CopyOnce(sid: nat, forProc: nat, want: nat) returns (bytes: seq<Byte>)
      requires Valid() && sid < |sessions| && forProc < |sessions[sid].queues| && HasMessage(sid, forProc) && want > 0
      modifies this
      ensures Valid() && |sessions| == |old(sessions)| && lastSession == old(lastSession)
      ensures OnlyQueueChanged(old(sessions), sessions, sid, forProc)
      ensures bytes + Pending(sid, forProc) == old(Pending(sid, forProc))
      ensures 0 < |bytes| <= want && |sessions[sid].queues[forProc]| <= |old(sessions)[sid].queues[forProc]|
    {
      var m := sessions[sid].queues[forProc][0];
      TurnConserves(sessions[sid].queues[forProc], want);
      ValidIsValidBut(sid, forProc);
      var count := Count(m, want);
      bytes := m.data[m.bytesRead..m.bytesRead + count];
      Consume(sid, forProc, m.bytesRead + count, |m.data| - m.bytesRead > want);
    }

    // The bytes up to newval are taken; the message goes unless it is only partly read.
    method Consume(sid: nat, forProc: nat, newval: nat, partial: bool)
      requires ValidBut(sid, forProc) && newval <= |sessions[sid].queues[forProc][0].data|
      requires partial <==> newval < |sessions[sid].queues[forProc][0].data|
      modifies this
      ensures Valid() && |sessions| == |old(sessions)| && lastSession == old(lastSession)
      ensures OnlyQueueChanged(old(sessions), sessions, sid, forProc)
      ensures var q := old(sessions)[sid].queues[forProc];
        sessions[sid].queues[forProc] == Left(q, newval)
    {
      UpdateBytesRead(sid, forProc, newval);
      if !partial {
        ghost var q := old(sessions)[sid].queues[forProc];
        assert q[0 := q[0].(bytesRead := newval)][1..] == q[1..];
        RmMessage(sid, forProc);
      }
    }

    // Between ss and ss', only one queue of one session and its byte count differ.
    static predicate OnlyQueueChanged(ss: seq<Session>, ss': seq<Session>, sid: nat, forProc: nat)
    {
      && |ss'| == |ss| && sid < |ss|
      && (forall i :: 0 <= i < |ss| && i != sid ==> ss'[i] == ss[i])
      && |ss'[sid].queues| == |ss[sid].queues| && ss'[sid].lastCachedDataAvail == ss[sid].lastCachedDataAvail
      && (forall p :: 0 <= p < |ss[sid].queues| && p != forProc ==> ss'[sid].queues[p] == ss[sid].queues[p])
    }

    /** The cached half of biterd_has_data_avail: starting from a cursor, scan the
        clients in turn, wrapping around.  The source asserts that the scan does not come
        back to where it started; that never fails, because the byte count is positive. */
    method ScanClients(sid: nat) returns (client: nat)
      requires Valid() && sid < |sessions| && sessions[sid].localBytesCached > 0
      modifies this`sessions
      ensures Valid() && |sessions| == |old(sessions)|
      ensures sessions == old(sessions)[sid := old(sessions)[sid].(lastCachedDataAvail := client + 1)]
      ensures client < |sessions[sid].queues| && HasMessage(sid, client)
      ensures FirstFrom(sessions[sid].queues, old(sessions)[sid].lastCachedDataAvail, client)
    {
      var s := sessions[sid];
      ghost var qs := s.queues;
      BytesMeanMessage(qs);
      ghost var w :| 0 <= w < |qs| && qs[w] != [];
      var orig := s.lastCachedDataAvail;
      var i: nat := orig;
      ghost var wrapped := false;
      while true
        invariant sessions == old(sessions)
        invariant !wrapped ==> orig <= i <= |qs| && NoneIn(qs, orig, i) && (i <= w || w < orig)
        invariant wrapped ==> NoneIn(qs, orig, |qs|) && NoneIn(qs, 0, i) && i <= w < orig
        decreases if wrapped then 0 else 1, |qs| - i
      {
        if i >= |s.queues| {
          i := 0;
          wrapped := true;
        }
        if HasMessage(sid, i) {
          sessions := sessions[sid := s.(lastCachedDataAvail := i + 1)];
          AllBytesUpdate(old(sessions), sid, sessions[sid]);
          client := i;
          return;
        }
        i := i + 1;
        assert i != orig;
      }
    }

    /** biterd_get_session_proc_w_aux_data: look through the sessions in turn from the
        saved cursor; within a session take the lowest client with a message. */
    method FindSessionProc() returns (found: bool, sid: nat, client: nat)
      requires Valid() && |sessions| > 0
      modifies this`lastSession
      ensures Valid()
      ensures found <==> bytesCached > 0
      ensures found ==> sid < |sessions| && client < |sessions[sid].queues| && HasMessage(sid, client)
      ensures found ==> NoneIn(sessions[sid].queues, 0, client)
      ensures found ==> FirstBusyFrom(sessions, old(lastSession), sid)
      ensures lastSession == if !found then old(lastSession) else if sid + 1 == |sessions| then 0 else sid + 1
    {
      var start := lastSession;
      var cur: nat := start;
      ghost var wrapped := false;
      while true
        invariant lastSession == start < |sessions| && cur < |sessions|
        invariant !wrapped ==> start <= cur && IdleIn(sessions, start, cur)
        invariant wrapped ==> cur < start && IdleIn(sessions, start, |sessions|) && IdleIn(sessions, 0, cur)
        decreases if wrapped then 0 else 1, |sessions| - cur
      {
        if sessions[cur].localBytesCached > 0 {
          client := FirstClient(cur);
          NoBytesAnywhere(sessions);
          lastSession := cur + 1;
          if lastSession == |sessions| {
            lastSession := 0;
          }
          return true, cur, client;
        }
        cur := cur + 1;
        if cur == |sessions| {
          cur := 0;
          wrapped := true;
        }
        if cur == start {
          NoBytesAnywhere(sessions);
          return false, 0, 0;
        }
      }
    }

    // The inner loop of that scan: a session with cached bytes has a client to return.
    method FirstClient(sid: nat) returns (client: nat)
      requires Valid() && sid < |sessions| && sessions[sid].localBytesCached > 0
      ensures client < |sessions[sid].queues| && HasMessage(sid, client)
      ensures NoneIn(sessions[sid].queues, 0, client)
    {
      ghost var qs := sessions[sid].queues;
      BytesMeanMessage(qs);
      ghost var w :| 0 <= w < |qs| && qs[w] != [];
      client := 0;
      while !HasMessage(sid, client)
        invariant client <= w && NoneIn(qs, 0, client)
        decreases w - client
      {
        client := client + 1;
      }
    }
  }

  // No session in [from, to) has cached bytes.
  predicate IdleIn(ss: seq<Session>, from: nat, to: nat)
  {
    forall i :: from <= i < to && i < |ss| ==> ss[i].localBytesCached == 0
  }

  // Going round from cursor, sid is the first session with cached bytes.
  predicate FirstBusyFrom(ss: seq<Session>, cursor: nat, sid: nat)
  {
    if sid >= cursor then IdleIn(ss, cursor, sid)
    else IdleIn(ss, cursor, |ss|) && IdleIn(ss, 0, sid)
  }

  // No client in [from, to) has a message.
  predicate NoneIn(qs: seq<seq<Message>>, from: nat, to: nat)
  {
    forall i :: from <= i < to && i < |qs| ==> qs[i] == []
  }

  // Going round from cursor, client is the first one with a message.
  predicate FirstFrom(qs: seq<seq<Message>>, cursor: nat, client: nat)
  {
    if client >= cursor then NoneIn(qs, cursor, client)
    else NoneIn(qs, cursor, |qs|) && NoneIn(qs, 0, client)
  }
}
