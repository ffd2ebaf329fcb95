/** The loops that one rank runs inside a collective (src/cobo/cobo.c): they visit the
    child array by index and walk an offset through one buffer.  Each is proved to
    compute what the machine of CoboCollectives says the rank computes. */
module CoboRank {
  import opened Bits
  import opened Bytes
  import opened CoboTree
  import opened CoboCollectives
  import opened CoboCalls

  // memcpy / cobo_read_fd into a buffer.
  method CopyInto(dst: array<Byte>, at: nat, src: seq<Byte>)
    requires at + |src| <= dst.Length
    modifies dst
    ensures dst[..at + |src|] == old(dst[..at]) + src
    ensures forall x :: at + |src| <= x < dst.Length ==> dst[x] == old(dst[x])
  {
    for i := 0 to |src|
      invariant forall x :: 0 <= x < i ==> dst[at + x] == src[x]
      invariant forall x :: (0 <= x < at || at + i <= x < dst.Length) ==> dst[x] == old(dst[x])
    {
      dst[at + i] := src[i];
    }
  }

  // The messages from the last one down to message i, one after the other.
  function LastFirst(msgs: seq<seq<Byte>>, i: int): seq<Byte>
    requires 0 <= i <= |msgs|
    decreases |msgs| - i
  {
    if i == |msgs| then [] else LastFirst(msgs, i + 1) + msgs[i]
  }

  // Ranks in the subtrees of the children from i on.
  function InclFrom(kids: seq<Kid>, i: int): int
    requires 0 <= i <= |kids|
    decreases |kids| - i
  {
    if i == |kids| then 0 else InclFrom(kids, i + 1) + kids[i].incl
  }

  lemma {:induction false} LastFirstLength(msgs: seq<seq<Byte>>, kids: seq<Kid>, sendcount: nat, i: int)
    requires |msgs| == |kids| && 0 <= i <= |msgs|
    requires forall j :: 0 <= j < |kids| ==> kids[j].incl >= 1 && |msgs[j]| == Span(sendcount, kids[j].incl)
    ensures InclFrom(kids, i) >= 0 && |LastFirst(msgs, i)| == Span(sendcount, InclFrom(kids, i))
    decreases |msgs| - i
  {
    if i < |msgs| {
      LastFirstLength(msgs, kids, sendcount, i + 1);
      SpanSum(sendcount, InclFrom(kids, i + 1), kids[i].incl);
    }
  }

  lemma {:induction false} LastFirstGrows(msgs: seq<seq<Byte>>, i: int)
    requires 0 <= i <= |msgs|
    ensures |LastFirst(msgs, i)| <= |LastFirst(msgs, 0)|
    decreases i
  {
    if i > 0 {
      LastFirstGrows(msgs, i - 1);
    }
  }

  /** cobo_gather_tree up to the point where the buffer is complete: the own block
      first, then the children's messages from the last child to the first. */
  method GatherAtRank(kids: seq<Kid>, sendcount: nat, own: seq<Byte>, fromChild: seq<seq<Byte>>) returns (bigbuf: array<Byte>)
    requires |own| == sendcount && |fromChild| == |kids|
    requires forall i :: 0 <= i < |kids| ==> kids[i].incl >= 1 && |fromChild[i]| == Span(sendcount, kids[i].incl)
    ensures bigbuf.Length == Span(sendcount, InclFrom(kids, 0) + 1)
    ensures bigbuf[..] == own + LastFirst(fromChild, 0)
  {
    var numChildIncl := InclFrom(kids, 0);
    LastFirstLength(fromChild, kids, sendcount, 0);
    bigbuf := new Byte[Span(sendcount, numChildIncl + 1)];
    CopyInto(bigbuf, 0, own);
    var offset := sendcount;
    var i := |kids|;
    while i > 0
      invariant 0 <= i <= |kids|
      invariant offset == sendcount + |LastFirst(fromChild, i)| <= bigbuf.Length
      invariant bigbuf[..offset] == own + LastFirst(fromChild, i)
    {
      i := i - 1;
      LastFirstGrows(fromChild, i);
      LastFirstNext(own, fromChild, i);
      CopyInto(bigbuf, offset, fromChild[i]);
      offset := offset + Span(sendcount, kids[i].incl);
    }
    assert bigbuf[..offset] == bigbuf[..];
  }

  lemma LastFirstNext(own: seq<Byte>, msgs: seq<seq<Byte>>, i: int)
    requires 0 <= i < |msgs|
    ensures |LastFirst(msgs, i)| == |LastFirst(msgs, i + 1)| + |msgs[i]|
    ensures own + LastFirst(msgs, i) == (own + LastFirst(msgs, i + 1)) + msgs[i]
  {
  }

  /** If every child sent the rank-ordered blocks of its subtree, the buffer holds the
      rank-ordered blocks of this subtree: what the machine sends to the parent. */
  lemma {:induction false} GatherBuffer(n: int, prog: nat -> BufCall, input: (int, nat) -> seq<Byte>, k: nat, me: int, fromChild: seq<seq<Byte>>, i: int)
    requires 0 <= me < n && prog(k).Gather? && |fromChild| == |Children(n, me)| && 0 <= i <= |fromChild|
    requires forall j :: 0 <= j < |fromChild| ==>
      Children(n, me)[j].rank < n && fromChild[j] == Fold(BufJob(n, prog, input), k, Children(n, me)[j].rank, Top(n, Children(n, me)[j].rank))
    ensures me <= Reach(n, me, i)
    ensures input(me, k) + LastFirst(fromChild, i) == Fold(BufJob(n, prog, input), k, me, Reach(n, me, i))
    decreases |fromChild| - i
  {
    if i == |fromChild| {
      ReachNone(n, me);
      assert input(me, k) + [] == input(me, k);
    } else {
      GatherBuffer(n, prog, input, k, me, fromChild, i + 1);
      var c := Children(n, me)[i].rank;
      KidFacts(n, me, i);
      assert me < c <= Top(n, c) == Reach(n, me, i) && Reach(n, me, i + 1) == c - 1;
      ConcatJoin(n, prog, input, k, me, c, Top(n, c));
      assert input(me, k) + LastFirst(fromChild, i) == (input(me, k) + LastFirst(fromChild, i + 1)) + fromChild[i];
    }
  }

  lemma ConcatJoin(n: int, prog: nat -> BufCall, input: (int, nat) -> seq<Byte>, k: nat, lo: int, c: int, hi: int)
    requires lo < c <= hi && prog(k).Gather?
    ensures var job := BufJob(n, prog, input);
      Fold(job, k, lo, c - 1) + Fold(job, k, c, hi) == Fold(job, k, lo, hi)
  {
    var job := BufJob(n, prog, input);
    BufJobSound(n, prog, input);
    assert job.calls(k) == BufProgram(prog(k));
    FoldJoin(job, k, lo, c - 1, hi);
  }

  lemma ReduceJoin(n: int, prog: nat -> NumCall, input: (int, nat) -> U64, k: nat, lo: int, c: int, hi: int)
    requires lo < c <= hi && prog(k).Allreduce?
    ensures var job := NumJob(n, prog, input);
      Combine(prog(k).op, Fold(job, k, lo, c - 1), Fold(job, k, c, hi)) == Fold(job, k, lo, hi)
  {
    var job := NumJob(n, prog, input);
    NumJobSound(n, prog, input);
    assert job.calls(k).up;
    FoldJoin(job, k, lo, c - 1, hi);
    NumOp(n, prog, input, k, Fold(job, k, lo, c - 1), Fold(job, k, c, hi));
  }

  // Folding in the i-th child extends the covered ranks to the end of its subtree.
  lemma ReduceStep(n: int, prog: nat -> NumCall, input: (int, nat) -> U64, k: nat, me: int, i: int, val: U64, child: U64)
    requires 0 <= me < n && prog(k).Allreduce? && 0 <= i < |Children(n, me)| && Children(n, me)[i].rank < n
    requires me <= Reach(n, me, i + 1) && val == Fold(NumJob(n, prog, input), k, me, Reach(n, me, i + 1))
    requires child == Fold(NumJob(n, prog, input), k, Children(n, me)[i].rank, Top(n, Children(n, me)[i].rank))
    ensures me <= Reach(n, me, i)
    ensures Combine(prog(k).op, val, child) == Fold(NumJob(n, prog, input), k, me, Reach(n, me, i))
  {
    var c := Children(n, me)[i].rank;
    KidFacts(n, me, i);
    assert me < c <= Top(n, c) == Reach(n, me, i);
    assert Reach(n, me, i + 1) == c - 1;
    ReduceJoin(n, prog, input, k, me, c, Top(n, c));
  }

  /** cobo_allreduce up to the point where the rank's value is sent on. */
  method ReduceAtRank(n: int, prog: nat -> NumCall, input: (int, nat) -> U64, k: nat, me: int, fromChild: seq<U64>)
    returns (val: U64)
    requires 0 <= me < n && prog(k).Allreduce? && |fromChild| == |Children(n, me)|
    requires forall i :: 0 <= i < |fromChild| ==>
      Children(n, me)[i].rank < n && fromChild[i] == Fold(NumJob(n, prog, input), k, Children(n, me)[i].rank, Top(n, Children(n, me)[i].rank))
    ensures val == Fold(NumJob(n, prog, input), k, me, Top(n, me))
  {
    val := input(me, k);
    ReachNone(n, me);
    var i := |fromChild|;
    while i > 0
      invariant 0 <= i <= |fromChild|
      invariant me <= Reach(n, me, i) && val == Fold(NumJob(n, prog, input), k, me, Reach(n, me, i))
    {
      i := i - 1;
      ReduceStep(n, prog, input, k, me, i, val, fromChild[i]);
      val := Combine(prog(k).op, val, fromChild[i]);
    }
  }

  // What child j is due from the buffer.
  function Share(kids: seq<Kid>, sendcount: nat, buf: seq<Byte>, j: int): seq<Byte>
    requires 0 <= j < |kids|
  {
    Slice(buf, Span(sendcount, 1 + Before(kids, j)), Span(sendcount, kids[j].incl))
  }

  /** cobo_scatter_tree at one rank: what it writes to each child. */
  method ScatterAtRank(kids: seq<Kid>, sendcount: nat, bigbuf: array<Byte>) returns (toChild: seq<seq<Byte>>)
    requires forall i :: 0 <= i < |kids| ==> kids[i].incl >= 1
    requires bigbuf.Length == Span(sendcount, 1 + Before(kids, |kids|))
    ensures |toChild| == |kids|
    ensures forall j {:trigger toChild[j]} :: 0 <= j < |kids| ==>
      toChild[j] == Share(kids, sendcount, bigbuf[..], j) && |toChild[j]| == Span(sendcount, kids[j].incl)
  {
    toChild := [];
    var offset := sendcount;
    ghost var buf := bigbuf[..];
    for i := 0 to |kids|
      invariant |toChild| == i
      invariant offset == Span(sendcount, 1 + Before(kids, i))
      invariant forall j {:trigger toChild[j]} :: 0 <= j < i ==>
        toChild[j] == Share(kids, sendcount, buf, j) && |toChild[j]| == Span(sendcount, kids[j].incl)
    {
      ScatterRoom(kids, sendcount, i);
      var size := Span(sendcount, kids[i].incl);
      var chunk := bigbuf[offset..offset + size];
      assert chunk == buf[offset..offset + size] == Share(kids, sendcount, buf, i);
      toChild := toChild + [chunk];
      offset := offset + size;
    }
  }

  // In the tree, the share of child j is the portion that the machine sends to it.
  lemma ShareIsPortion(n: int, me: int, sendcount: nat, buf: seq<Byte>, j: int)
    requires 0 <= me < n && 0 <= j < |Children(n, me)|
    ensures Share(Children(n, me), sendcount, buf, j) == Portion(sendcount, n, me, j, buf)
  {
  }

  lemma ScatterRoom(kids: seq<Kid>, sendcount: nat, i: int)
    requires 0 <= i < |kids| && forall j :: 0 <= j < |kids| ==> kids[j].incl >= 1
    ensures Before(kids, i) >= 0
    ensures Span(sendcount, 1 + Before(kids, i)) + Span(sendcount, kids[i].incl) == Span(sendcount, 1 + Before(kids, i + 1))
    ensures Span(sendcount, 1 + Before(kids, i + 1)) <= Span(sendcount, 1 + Before(kids, |kids|))
  {
    BeforeGrows(kids, 0, i);
    BeforeGrows(kids, i + 1, |kids|);
    SpanSum(sendcount, 1 + Before(kids, i), kids[i].incl);
    SpanMono(sendcount, 1 + Before(kids, i + 1), 1 + Before(kids, |kids|));
  }

  lemma {:induction false} BeforeGrows(kids: seq<Kid>, i: int, j: int)
    requires 0 <= i <= j <= |kids| && forall x :: 0 <= x < |kids| ==> kids[x].incl >= 1
    ensures Before(kids, i) <= Before(kids, j)
    decreases j - i
  {
    if i < j {
      BeforeGrows(kids, i, j - 1);
    }
  }
}
