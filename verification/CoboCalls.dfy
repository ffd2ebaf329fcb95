/** The collectives that COBO offers, as calls of the machine of CoboCollectives, and
    what each of them delivers (src/cobo/cobo.c). */
module CoboCalls {
  import opened Bits
  import opened Bytes
  import opened CoboTree
  import opened CoboCollectives

  // ------------------------------------------------------- calls on one integer

  datatype ReduceOp = Min | Max | BitwiseAnd | BitwiseOr | LogicalAnd | LogicalOr | Sum | Noop

  // Combining a rank's value with the value read from a child.
  function Combine(op: ReduceOp, mine: U64, child: U64): U64
  {
    match op
    case Min => if child < mine then child else mine
    case Max => if child > mine then child else mine
    case BitwiseAnd => And(mine as nat, child as nat) as U64
    case BitwiseOr => OrFits64(mine, child); Or(mine as nat, child as nat) as U64
    case LogicalAnd => if mine != 0 && child != 0 then 1 else 0
    case LogicalOr => if mine != 0 || child != 0 then 1 else 0
    case Sum => ((mine as int + child as int) % TWO_64) as U64
    case Noop => mine
  }

  lemma OrFits64(a: U64, b: U64)
    ensures Or(a as nat, b as nat) < TWO_64
  {
    TwoTo64();
    OrFits(a as nat, b as nat, 64);
  }

  datatype NumCall = Allreduce(op: ReduceOp) | BcastNum

  function NumProgram(c: NumCall): Call<U64>
  {
    Call(c.Allreduce?, true,
      (a: U64, b: U64) => if c.Allreduce? then Combine(c.op, a, b) else a,
      (n: int, r: int, j: int, v: U64) => v,
      (v: U64) => v)
  }

  // Every rank makes the calls prog(0), prog(1), .. in turn.
  function NumJob(n: int, prog: nat -> NumCall, input: (int, nat) -> U64): Job<U64>
  {
    Job(n, (k: nat) => NumProgram(prog(k)), input)
  }

  lemma ModSum(x: nat, y: nat)
    ensures (x % TWO_64 + y) % TWO_64 == (x + y) % TWO_64
  {
    var q := x / TWO_64;
    assert x + y == (x % TWO_64 + y) + q * TWO_64;
    ModDrop(x % TWO_64 + y, q);
  }

  lemma {:induction false} ModDrop(x: nat, q: nat)
    ensures (x + q * TWO_64) % TWO_64 == x % TWO_64
  {
    if q > 0 {
      ModDrop(x, q - 1);
      assert x + q * TWO_64 == x + (q - 1) * TWO_64 + TWO_64;
    }
  }

  lemma CombineAssociative(op: ReduceOp, a: U64, b: U64, c: U64)
    ensures Combine(op, Combine(op, a, b), c) == Combine(op, a, Combine(op, b, c))
  {
    match op
    case BitwiseAnd => AndAssociative(a as nat, b as nat, c as nat);
    case BitwiseOr => OrAssociative(a as nat, b as nat, c as nat);
    case Sum => ModSum(a as nat + b as nat, c as nat); ModSum(b as nat + c as nat, a as nat);
    case _ =>
  }

  lemma NumOp(n: int, prog: nat -> NumCall, input: (int, nat) -> U64, k: nat, a: U64, b: U64)
    requires prog(k).Allreduce?
    ensures NumJob(n, prog, input).calls(k).op(a, b) == Combine(prog(k).op, a, b)
  {
  }

  lemma NumJobSound(n: int, prog: nat -> NumCall, input: (int, nat) -> U64)
    ensures Sound(NumJob(n, prog, input))
  {
    var job := NumJob(n, prog, input);
    forall k: nat | job.calls(k).up
      ensures Associative(job.calls(k).op)
    {
      var op := job.calls(k).op;
      forall a: U64, b: U64, c: U64
        ensures op(op(a, b), c) == op(a, op(b, c))
      {
        assert prog(k).Allreduce?;
        CombineAssociative(prog(k).op, a, b, c);
      }
    }
  }

  function Total(job: Job<U64>, k: nat, lo: int, hi: int): nat
    requires lo <= hi
    decreases hi - lo
  {
    job.input(hi, k) as nat + if lo == hi then 0 else Total(job, k, lo, hi - 1)
  }

  predicate HasBit(v: U64, i: nat)
  {
    Bit(v as nat, i)
  }

  // v is the reduction of the values of ranks lo .. hi, said without folding.
  ghost predicate Reduces(op: ReduceOp, job: Job<U64>, k: nat, lo: int, hi: int, v: U64)
    requires lo <= hi
  {
    match op
    case Min => (exists r :: lo <= r <= hi && job.input(r, k) == v) && forall r :: lo <= r <= hi ==> v <= job.input(r, k)
    case Max => (exists r :: lo <= r <= hi && job.input(r, k) == v) && forall r :: lo <= r <= hi ==> v >= job.input(r, k)
    case BitwiseAnd => forall i: nat :: HasBit(v, i) <==> forall r :: lo <= r <= hi ==> HasBit(job.input(r, k), i)
    case BitwiseOr => forall i: nat :: HasBit(v, i) <==> exists r :: lo <= r <= hi && HasBit(job.input(r, k), i)
    case LogicalAnd => (v != 0 <==> forall r :: lo <= r <= hi ==> job.input(r, k) != 0) && (lo < hi ==> v <= 1)
    case LogicalOr => (v != 0 <==> exists r :: lo <= r <= hi && job.input(r, k) != 0) && (lo < hi ==> v <= 1)
    case Sum => v as nat == Total(job, k, lo, hi) % TWO_64
    case Noop => v == job.input(lo, k)
  }

  lemma {:induction false} FoldReduces(n: int, prog: nat -> NumCall, input: (int, nat) -> U64, k: nat, lo: int, hi: int)
    requires lo <= hi && prog(k).Allreduce?
    ensures Reduces(prog(k).op, NumJob(n, prog, input), k, lo, hi, Fold(NumJob(n, prog, input), k, lo, hi))
    decreases hi - lo
  {
    var job := NumJob(n, prog, input);
    var op := prog(k).op;
    if lo < hi {
      FoldReduces(n, prog, input, k, lo, hi - 1);
      ReduceOneMore(op, job, k, lo, hi, Fold(job, k, lo, hi - 1));
    } else {
      assert job.input(lo, k) == Fold(job, k, lo, hi);
      assert op == Sum ==> Total(job, k, lo, hi) == job.input(lo, k) as nat;
    }
  }

  lemma ReduceOneMore(op: ReduceOp, job: Job<U64>, k: nat, lo: int, hi: int, v: U64)
    requires lo < hi && Reduces(op, job, k, lo, hi - 1, v)
    ensures Reduces(op, job, k, lo, hi, Combine(op, v, job.input(hi, k)))
  {
    match op
    case Min => OrderOneMore(op, job, k, lo, hi, v);
    case Max => OrderOneMore(op, job, k, lo, hi, v);
    case BitwiseAnd => AndOneMore(job, k, lo, hi, v);
    case BitwiseOr => OrOneMore(job, k, lo, hi, v);
    case LogicalAnd =>
    case LogicalOr => assert lo <= hi <= hi;
    case Sum => ModSum(Total(job, k, lo, hi - 1), job.input(hi, k) as nat);
    case Noop =>
  }

  lemma OrderOneMore(op: ReduceOp, job: Job<U64>, k: nat, lo: int, hi: int, v: U64)
    requires lo < hi && (op == Min || op == Max) && Reduces(op, job, k, lo, hi - 1, v)
    ensures Reduces(op, job, k, lo, hi, Combine(op, v, job.input(hi, k)))
  {
    var r :| lo <= r <= hi - 1 && job.input(r, k) == v;
    assert lo <= r <= hi && lo <= hi <= hi;
  }

  lemma AndOneMore(job: Job<U64>, k: nat, lo: int, hi: int, v: U64)
    requires lo < hi && Reduces(BitwiseAnd, job, k, lo, hi - 1, v)
    ensures Reduces(BitwiseAnd, job, k, lo, hi, Combine(BitwiseAnd, v, job.input(hi, k)))
  {
    var w := job.input(hi, k);
    forall i: nat
      ensures HasBit(Combine(BitwiseAnd, v, w), i) <==> forall r :: lo <= r <= hi ==> HasBit(job.input(r, k), i)
    {
      BitOfAnd(v as nat, w as nat, i);
      assert HasBit(v, i) <==> forall r :: lo <= r <= hi - 1 ==> HasBit(job.input(r, k), i);
    }
  }

  lemma OrOneMore(job: Job<U64>, k: nat, lo: int, hi: int, v: U64)
    requires lo < hi && Reduces(BitwiseOr, job, k, lo, hi - 1, v)
    ensures Reduces(BitwiseOr, job, k, lo, hi, Combine(BitwiseOr, v, job.input(hi, k)))
  {
    var w := job.input(hi, k);
    forall i: nat
      ensures HasBit(Combine(BitwiseOr, v, w), i) <==> exists r :: lo <= r <= hi && HasBit(job.input(r, k), i)
    {
      BitOfOr(v as nat, w as nat, i);
      assert HasBit(v, i) <==> exists r :: lo <= r <= hi - 1 && HasBit(job.input(r, k), i);
      assert lo <= hi <= hi;
    }
  }

  lemma {:induction false} BcastReaches(n: int, prog: nat -> NumCall, input: (int, nat) -> U64, k: nat, r: int)
    requires 0 <= r < n
    ensures Received(NumJob(n, prog, input), k, r) == Received(NumJob(n, prog, input), k, 0)
    decreases r
  {
    if r > 0 {
      var job := NumJob(n, prog, input);
      var p := Parent(n, r);
      BcastReaches(n, prog, input, k, p);
      assert job.calls(k) == NumProgram(prog(k));
      assert job.calls(k).part(n, p, Index(n, r), Received(job, k, p)) == Received(job, k, p);
    }
  }

  /** cobo_bcast: in every interleaving, every rank leaves a broadcast of a number with what
      rank 0 passed in. */
  lemma BcastNumEverywhere(n: int, prog: nat -> NumCall, input: (int, nat) -> U64,
                           tr: seq<State<U64>>, i: nat, r: int, k: nat)
    requires Run(NumJob(n, prog, input), tr) && i < |tr| && 0 <= r < n && |tr[i].ranks| == n
    requires k < |tr[i].ranks[r].outs| && prog(k).BcastNum?
    ensures tr[i].ranks[r].outs[k] == input(0, k)
  {
    NumJobSound(n, prog, input);
    ResultsAreScheduleIndependent(NumJob(n, prog, input), tr, i, r, k);
    BcastReaches(n, prog, input, k, r);
  }

  /** cobo_allreduce: in every interleaving of any sequence of calls, every rank comes
      out of an allreduce with the reduction of all ranks' values. */
  lemma AllreduceEverywhere(n: int, prog: nat -> NumCall, input: (int, nat) -> U64,
                            tr: seq<State<U64>>, i: nat, r: int, k: nat)
    requires Run(NumJob(n, prog, input), tr) && i < |tr| && 0 <= r < n && |tr[i].ranks| == n
    requires k < |tr[i].ranks[r].outs| && prog(k).Allreduce?
    ensures tr[i].ranks[r].outs[k] == Fold(NumJob(n, prog, input), k, 0, n - 1)
    ensures Reduces(prog(k).op, NumJob(n, prog, input), k, 0, n - 1, tr[i].ranks[r].outs[k])
  {
    var job := NumJob(n, prog, input);
    NumJobSound(n, prog, input);
    ResultsAreScheduleIndependent(job, tr, i, r, k);
    BcastReaches(n, prog, input, k, r);
    FoldReduces(n, prog, input, k, 0, n - 1);
  }

  // ------------------------------------------------------------ calls on buffers

  datatype BufCall = Gather | BcastBuf | Scatter(sendcount: nat)

  // The length of m blocks of sendcount bytes.
  function Span(sendcount: nat, m: int): (len: nat)
    decreases m
  {
    if m <= 0 then 0 else Span(sendcount, m - 1) + sendcount
  }

  lemma {:induction false} SpanIsProduct(sendcount: nat, m: nat)
    ensures Span(sendcount, m) == m * sendcount
  {
    if m > 0 {
      SpanIsProduct(sendcount, m - 1);
    }
  }

  lemma {:induction false} SpanSum(sendcount: nat, a: nat, b: nat)
    ensures Span(sendcount, a + b) == Span(sendcount, a) + Span(sendcount, b)
    decreases b
  {
    if b > 0 {
      SpanSum(sendcount, a, b - 1);
    }
  }

  lemma SpanMono(sendcount: nat, a: nat, b: nat)
    requires a <= b
    ensures Span(sendcount, a) <= Span(sendcount, b)
  {
    SpanSum(sendcount, a, b - a);
  }

  // s[from .. from + len], or what there is of it.
  function Slice<T>(s: seq<T>, from: nat, len: nat): (t: seq<T>)
    ensures from + len <= |s| ==> t == s[from..from + len]
  {
    if from + len <= |s| then s[from..from + len]
    else if from <= |s| then s[from..]
    else []
  }

  // What rank r sends to its j-th child when it scatters the buffer v.
  function Portion(sendcount: nat, n: int, r: int, j: int, v: seq<Byte>): seq<Byte>
  {
    if 0 <= r < n && 0 <= j < |Children(n, r)| then
      Slice(v, Span(sendcount, 1 + InclBefore(n, r, j)), Span(sendcount, Children(n, r)[j].incl))
    else v
  }

  function BufProgram(c: BufCall): Call<seq<Byte>>
  {
    Call(c.Gather?, !c.Gather?,
      (a: seq<Byte>, b: seq<Byte>) => a + b,
      (n: int, r: int, j: int, v: seq<Byte>) => if c.Scatter? then Portion(c.sendcount, n, r, j, v) else v,
      (v: seq<Byte>) => if c.Scatter? then Slice(v, 0, c.sendcount) else v)
  }

  function BufJob(n: int, prog: nat -> BufCall, input: (int, nat) -> seq<Byte>): Job<seq<Byte>>
  {
    Job(n, (k: nat) => BufProgram(prog(k)), input)
  }

  lemma BufJobSound(n: int, prog: nat -> BufCall, input: (int, nat) -> seq<Byte>)
    ensures Sound(BufJob(n, prog, input))
  {
    var job := BufJob(n, prog, input);
    forall k: nat | job.calls(k).up
      ensures Associative(job.calls(k).op)
    {
      var op := job.calls(k).op;
      forall a: seq<Byte>, b: seq<Byte>, c: seq<Byte>
        ensures op(op(a, b), c) == op(a, op(b, c))
      {
        assert job.calls(k) == BufProgram(prog(k));
        assert op(a, b) == a + b && op(b, c) == b + c;
        assert op(op(a, b), c) == (a + b) + c == a + (b + c) == op(a, op(b, c));
      }
    }
  }

  // Blocks of ranks lo .. hi laid out one after the other.
  ghost predicate RankOrdered(job: Job<seq<Byte>>, k: nat, lo: int, hi: int, sendcount: nat, buf: seq<Byte>)
  {
    && |buf| == Span(sendcount, hi - lo + 1)
    && forall x :: lo <= x <= hi ==> Slice(buf, Span(sendcount, x - lo), sendcount) == job.input(x, k)
  }

  lemma AppendBlock(job: Job<seq<Byte>>, k: nat, lo: int, hi: int, sendcount: nat, front: seq<Byte>)
    requires lo < hi && RankOrdered(job, k, lo, hi - 1, sendcount, front)
    requires |job.input(hi, k)| == sendcount
    ensures RankOrdered(job, k, lo, hi, sendcount, front + job.input(hi, k))
  {
    var all := front + job.input(hi, k);
    forall x | lo <= x <= hi
      ensures Slice(all, Span(sendcount, x - lo), sendcount) == job.input(x, k)
    {
      if x < hi {
        SpanMono(sendcount, x - lo + 1, hi - lo);
        SliceOfFront(front, job.input(hi, k), Span(sendcount, x - lo), sendcount);
      } else {
        SliceOfBack(front, job.input(hi, k));
      }
    }
  }

  lemma SliceOfFront<T>(a: seq<T>, b: seq<T>, from: nat, len: nat)
    requires from + len <= |a|
    ensures Slice(a + b, from, len) == Slice(a, from, len)
  {
  }

  lemma SliceOfBack<T>(a: seq<T>, b: seq<T>)
    ensures Slice(a + b, |a|, |b|) == b
  {
  }

  lemma {:induction false} GatherFold(n: int, prog: nat -> BufCall, input: (int, nat) -> seq<Byte>, k: nat, lo: int, hi: int, sendcount: nat)
    requires lo <= hi && prog(k).Gather?
    requires forall x :: lo <= x <= hi ==> |input(x, k)| == sendcount
    ensures RankOrdered(BufJob(n, prog, input), k, lo, hi, sendcount, Fold(BufJob(n, prog, input), k, lo, hi))
    decreases hi - lo
  {
    var job := BufJob(n, prog, input);
    if lo < hi {
      GatherFold(n, prog, input, k, lo, hi - 1, sendcount);
      AppendBlock(job, k, lo, hi, sendcount, Fold(job, k, lo, hi - 1));
      assert job.calls(k) == BufProgram(prog(k));
      assert Fold(job, k, lo, hi) == Fold(job, k, lo, hi - 1) + job.input(hi, k);
    } else {
      assert Fold(job, k, lo, hi) == job.input(lo, k);
    }
  }

  /** cobo_gather: rank 0 ends up with the block of rank x at offset x * sendcount
      (SpanIsProduct). */
  lemma GatherIsRankOrdered(n: int, prog: nat -> BufCall, input: (int, nat) -> seq<Byte>,
                            tr: seq<State<seq<Byte>>>, i: nat, k: nat, sendcount: nat)
    requires Run(BufJob(n, prog, input), tr) && i < |tr| && |tr[i].ranks| == n > 0
    requires k < |tr[i].ranks[0].outs| && prog(k).Gather?
    requires forall x :: 0 <= x < n ==> |input(x, k)| == sendcount
    ensures RankOrdered(BufJob(n, prog, input), k, 0, n - 1, sendcount, tr[i].ranks[0].outs[k])
  {
    var job := BufJob(n, prog, input);
    BufJobSound(n, prog, input);
    ResultsAreScheduleIndependent(job, tr, i, 0, k);
    GatherFold(n, prog, input, k, 0, n - 1, sendcount);
  }

  lemma {:induction false} BcastBufReaches(n: int, prog: nat -> BufCall, input: (int, nat) -> seq<Byte>, k: nat, r: int)
    requires 0 <= r < n && prog(k).BcastBuf?
    ensures Received(BufJob(n, prog, input), k, r) == input(0, k)
    decreases r
  {
    if r > 0 {
      BcastBufReaches(n, prog, input, k, Parent(n, r));
    }
  }

  /** cobo_bcast: every rank leaves a broadcast of a buffer with rank 0's buffer. */
  lemma BcastBufEverywhere(n: int, prog: nat -> BufCall, input: (int, nat) -> seq<Byte>,
                           tr: seq<State<seq<Byte>>>, i: nat, r: int, k: nat)
    requires Run(BufJob(n, prog, input), tr) && i < |tr| && 0 <= r < n && |tr[i].ranks| == n
    requires k < |tr[i].ranks[r].outs| && prog(k).BcastBuf?
    ensures tr[i].ranks[r].outs[k] == input(0, k)
  {
    BufJobSound(n, prog, input);
    ResultsAreScheduleIndependent(BufJob(n, prog, input), tr, i, r, k);
    BcastBufReaches(n, prog, input, k, r);
  }

  /** cobo_allgather: a gather, then a broadcast of what rank 0 gathered.  Every rank
      ends up with the same rank-ordered buffer. */
  lemma AllgatherEverywhere(n: int, prog: nat -> BufCall, input: (int, nat) -> seq<Byte>,
                            tr: seq<State<seq<Byte>>>, i: nat, r: int, k: nat, sendcount: nat)
    requires Run(BufJob(n, prog, input), tr) && i < |tr| && 0 <= r < n && |tr[i].ranks| == n
    requires k + 1 < |tr[i].ranks[r].outs| && prog(k).Gather? && prog(k + 1).BcastBuf?
    requires k < |tr[i].ranks[0].outs| && input(0, k + 1) == tr[i].ranks[0].outs[k]
    requires forall x :: 0 <= x < n ==> |input(x, k)| == sendcount
    ensures RankOrdered(BufJob(n, prog, input), k, 0, n - 1, sendcount, tr[i].ranks[r].outs[k + 1])
  {
    var job := BufJob(n, prog, input);
    BufJobSound(n, prog, input);
    ResultsAreScheduleIndependent(job, tr, i, r, k + 1);
    BcastBufReaches(n, prog, input, k + 1, r);
    GatherIsRankOrdered(n, prog, input, tr, i, k, sendcount);
  }
}
