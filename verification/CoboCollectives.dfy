/** The COBO collectives as a message-passing machine (src/cobo/cobo.c).  Every rank
    performs the same sequence of collective calls over the tree of CoboTree; each
    tree edge is a pair of reliable FIFO channels.  A step is one rank reading or
    writing one message, so a run is any interleaving of the ranks' programs.
 */
module CoboCollectives {
  import opened CoboTree

  /** One collective call, as the code of every rank carries it out.
      up:   combine the children's messages with op, then send to the parent;
      down: receive from the parent, then send part(n, me, j, data) to child j.
      The caller is left with keep(data). */
  datatype Call<!T> = Call(
    up: bool,
    down: bool,
    op: (T, T) -> T,
    part: (int, int, int, T) -> T,
    keep: T -> T)

  // n ranks; the call of every round; and what each rank passes in at each round.
  datatype Job<!T> = Job(n: int, calls: nat -> Call<T>, input: (int, nat) -> T)

  // Where a rank stands in its current call.  Collect(i): children below i are still
  // to be received from (they are visited last to first).  Forward(j): children from
  // j on are still to be sent to.
  datatype Pc = Out | Collect(i: nat) | AwaitDown | Forward(j: nat)

  // |outs| calls are complete; a rank that is not Out is inside call number |outs|.
  datatype Rank<T> = Rank(pc: Pc, acc: T, outs: seq<T>)

  // up[c] and down[c] are the two directions of the edge from rank c to its parent.
  datatype State<T> = State(ranks: seq<Rank<T>>, up: seq<seq<T>>, down: seq<seq<T>>)

  datatype Action = Enter | RecvChild | SendUp | RecvParent | SendChild | Leave

  ghost predicate Shape<T(!new)>(job: Job<T>, s: State<T>)
  {
    job.n > 0 && |s.ranks| == |s.up| == |s.down| == job.n
  }

  ghost predicate Init<T(!new)>(job: Job<T>, s: State<T>)
  {
    && Shape(job, s)
    && forall r :: 0 <= r < job.n ==> s.ranks[r].pc == Out && s.ranks[r].outs == [] && s.up[r] == [] && s.down[r] == []
  }

  function NumKids<T>(job: Job<T>, r: int): nat
    requires 0 <= r < job.n
  {
    |Children(job.n, r)|
  }

  // The program point after the upward half of call k.
  function AfterUp<T>(job: Job<T>, r: int, k: nat): Pc
    requires 0 <= r < job.n
  {
    if !job.calls(k).down then Forward(NumKids(job, r))
    else if r == 0 then Forward(0)
    else AwaitDown
  }

  ghost predicate Enabled<T(!new)>(job: Job<T>, s: State<T>, r: int, a: Action)
    requires Shape(job, s) && 0 <= r < job.n
  {
    var pc := s.ranks[r].pc;
    match a
    case Enter => pc.Out?
    case RecvChild => pc.Collect? && 0 < pc.i <= NumKids(job, r) && KidRank(job, r, pc.i - 1) < job.n && s.up[KidRank(job, r, pc.i - 1)] != []
    case SendUp => pc.Collect? && pc.i == 0
    case RecvParent => pc.AwaitDown? && s.down[r] != []
    case SendChild => pc.Forward? && pc.j < NumKids(job, r) && KidRank(job, r, pc.j) < job.n
    case Leave => pc.Forward? && pc.j == NumKids(job, r)
  }

  function KidRank<T>(job: Job<T>, r: int, i: int): (c: int)
    requires 0 <= r < job.n && 0 <= i < NumKids(job, r)
    ensures r < c
  {
    Children(job.n, r)[i].rank
  }

  // The effect of each action on the acting rank; msg is the message it reads.
  function Entered<T>(job: Job<T>, r: int, me: Rank<T>): Rank<T>
    requires 0 <= r < job.n
  {
    var k := |me.outs|;
    me.(acc := job.input(r, k), pc := if job.calls(k).up then Collect(NumKids(job, r)) else AfterUp(job, r, k))
  }

  function Combined<T>(job: Job<T>, me: Rank<T>, msg: T): Rank<T>
    requires me.pc.Collect? && me.pc.i > 0
  {
    me.(acc := job.calls(|me.outs|).op(me.acc, msg), pc := Collect(me.pc.i - 1))
  }

  function Passed<T>(job: Job<T>, r: int, me: Rank<T>): Rank<T>
    requires 0 <= r < job.n
  {
    me.(pc := AfterUp(job, r, |me.outs|))
  }

  function Heard<T>(me: Rank<T>, msg: T): Rank<T>
  {
    me.(acc := msg, pc := Forward(0))
  }

  function Forwarded<T>(me: Rank<T>): Rank<T>
    requires me.pc.Forward?
  {
    me.(pc := Forward(me.pc.j + 1))
  }

  function Finished<T>(job: Job<T>, me: Rank<T>): Rank<T>
  {
    me.(pc := Out, outs := me.outs + [job.calls(|me.outs|).keep(me.acc)])
  }

  ghost function Apply<T(!new)>(job: Job<T>, s: State<T>, r: int, a: Action): (s': State<T>)
    requires Shape(job, s) && 0 <= r < job.n && Enabled(job, s, r, a)
    ensures Shape(job, s')
  {
    var me := s.ranks[r];
    match a
    case Enter =>
      s.(ranks := s.ranks[r := Entered(job, r, me)])
    case RecvChild =>
      var c := KidRank(job, r, me.pc.i - 1);
      s.(ranks := s.ranks[r := Combined(job, me, s.up[c][0])], up := s.up[c := s.up[c][1..]])
    case SendUp =>
      s.(ranks := s.ranks[r := Passed(job, r, me)],
         up := if r == 0 then s.up else s.up[r := s.up[r] + [me.acc]])
    case RecvParent =>
      s.(ranks := s.ranks[r := Heard(me, s.down[r][0])], down := s.down[r := s.down[r][1..]])
    case SendChild =>
      var c := KidRank(job, r, me.pc.j);
      s.(ranks := s.ranks[r := Forwarded(me)],
         down := s.down[c := s.down[c] + [job.calls(|me.outs|).part(job.n, r, me.pc.j, me.acc)]])
    case Leave =>
      s.(ranks := s.ranks[r := Finished(job, me)])
  }

  ghost predicate Next<T(!new)>(job: Job<T>, s: State<T>, s': State<T>)
  {
    Shape(job, s) && exists r, a :: 0 <= r < job.n && Enabled(job, s, r, a) && s' == Apply(job, s, r, a)
  }

  ghost predicate Run<T(!new)>(job: Job<T>, tr: seq<State<T>>)
  {
    && |tr| > 0
    && Init(job, tr[0])
    && forall i :: 0 <= i < |tr| - 1 ==> Next(job, tr[i], tr[i + 1])
  }

  // ------------------------------------------------------------------- values

  // input(lo, k) op input(lo+1, k) op .. op input(hi, k), in rank order.
  function Fold<T>(job: Job<T>, k: nat, lo: int, hi: int): T
    requires lo <= hi
    decreases hi - lo
  {
    if lo == hi then job.input(lo, k)
    else job.calls(k).op(Fold(job, k, lo, hi - 1), job.input(hi, k))
  }

  // What rank r holds once it has heard from its parent in call k.
  ghost function Received<T>(job: Job<T>, k: nat, r: int): T
    requires 0 <= r < job.n
    decreases r
  {
    if r > 0 then
      var p := Parent(job.n, r);
      job.calls(k).part(job.n, p, Index(job.n, r), Received(job, k, p))
    else if job.calls(k).up then Fold(job, k, 0, job.n - 1)
    else job.input(0, k)
  }

  // What rank r is left with after call k.
  ghost function Result<T>(job: Job<T>, k: nat, r: int): T
    requires 0 <= r < job.n
  {
    var call := job.calls(k);
    call.keep(
      if call.down then Received(job, k, r)
      else if call.up then Fold(job, k, r, Top(job.n, r))
      else job.input(r, k))
  }

  ghost predicate Associative<T(!new)>(op: (T, T) -> T)
  {
    forall a, b, c :: op(op(a, b), c) == op(a, op(b, c))
  }

  ghost predicate Sound<T(!new)>(job: Job<T>)
  {
    forall k: nat :: job.calls(k).up ==> Associative(job.calls(k).op)
  }

  lemma {:induction false} FoldJoin<T(!new)>(job: Job<T>, k: nat, lo: int, m: int, hi: int)
    requires lo <= m < hi
    requires Associative(job.calls(k).op)
    ensures job.calls(k).op(Fold(job, k, lo, m), Fold(job, k, m + 1, hi)) == Fold(job, k, lo, hi)
    decreases hi - m
  {
    if m + 1 < hi {
      FoldJoin(job, k, lo, m, hi - 1);
    }
  }

  // ----------------------------------------------------------------- channels

  // Does call k send a message in the given direction, and which one over edge c?
  predicate Flag<T>(job: Job<T>, isUp: bool, k: nat)
  {
    if isUp then job.calls(k).up else job.calls(k).down
  }

  ghost function Val<T>(job: Job<T>, isUp: bool, c: int, k: nat): T
    requires 0 < c < job.n
  {
    if isUp then Fold(job, k, c, Top(job.n, c)) else Received(job, k, c)
  }

  // The messages of calls a .. b-1 over edge c.
  ghost function Msgs<T>(job: Job<T>, isUp: bool, c: int, a: nat, b: nat): seq<T>
    requires 0 < c < job.n
    decreases b
  {
    if a >= b then []
    else Msgs(job, isUp, c, a, b - 1) + (if Flag(job, isUp, b - 1) then [Val(job, isUp, c, b - 1)] else [])
  }

  // The channel holds exactly the messages of the calls that the sender has dealt
  // with and the receiver has not.  A receiver is ahead of its sender only across
  // calls without a message in this direction.
  ghost predicate Channel<T>(job: Job<T>, isUp: bool, c: int, ch: seq<T>, got: nat, sent: nat)
    requires 0 < c < job.n
  {
    && ch == Msgs(job, isUp, c, got, sent)
    && forall k: nat :: sent <= k < got ==> !Flag(job, isUp, k)
  }

  lemma ChannelPut<T>(job: Job<T>, isUp: bool, c: int, ch: seq<T>, got: nat, sent: nat)
    requires 0 < c < job.n
    requires Channel(job, isUp, c, ch, got, sent)
    ensures Channel(job, isUp, c, if Flag(job, isUp, sent) then ch + [Val(job, isUp, c, sent)] else ch, got, sent + 1)
  {
  }

  lemma {:induction false} MsgsHead<T>(job: Job<T>, isUp: bool, c: int, a: nat, b: nat)
    requires 0 < c < job.n && a < b
    ensures Msgs(job, isUp, c, a, b) ==
      (if Flag(job, isUp, a) then [Val(job, isUp, c, a)] else []) + Msgs(job, isUp, c, a + 1, b)
    decreases b
  {
    if a + 1 < b {
      MsgsHead(job, isUp, c, a, b - 1);
    }
  }

  lemma ChannelGet<T>(job: Job<T>, isUp: bool, c: int, ch: seq<T>, got: nat, sent: nat)
    requires 0 < c < job.n
    requires Channel(job, isUp, c, ch, got, sent)
    requires Flag(job, isUp, got) ==> ch != []
    ensures Flag(job, isUp, got) ==> ch[0] == Val(job, isUp, c, got)
    ensures Channel(job, isUp, c, if Flag(job, isUp, got) then ch[1..] else ch, got + 1, sent)
  {
    if got < sent {
      MsgsHead(job, isUp, c, got, sent);
    }
  }

  // --------------------------------------------------------------- invariant

  // How many calls a rank has dealt with: on its upward edge, and as a receiver from
  // its parent.
  function SentUp<T>(me: Rank<T>): nat
  {
    |me.outs| + if me.pc.AwaitDown? || me.pc.Forward? then 1 else 0
  }

  function GotDown<T>(me: Rank<T>): nat
  {
    |me.outs| + if me.pc.Forward? then 1 else 0
  }

  // The same for a parent, towards its i-th child.
  function GotUp<T>(parent: Rank<T>, i: int): nat
  {
    |parent.outs| + if parent.pc.Out? || (parent.pc.Collect? && i < parent.pc.i) then 0 else 1
  }

  function SentDown<T>(parent: Rank<T>, i: int): nat
  {
    |parent.outs| + if parent.pc.Forward? && i < parent.pc.j then 1 else 0
  }

  ghost predicate EdgeOk<T>(job: Job<T>, c: int, me: Rank<T>, parent: Rank<T>, up: seq<T>, down: seq<T>)
    requires 0 < c < job.n
  {
    && Channel(job, true, c, up, GotUp(parent, Index(job.n, c)), SentUp(me))
    && Channel(job, false, c, down, GotDown(me), SentDown(parent, Index(job.n, c)))
  }

  ghost predicate RankOk<T>(job: Job<T>, r: int, me: Rank<T>)
    requires 0 <= r < job.n
  {
    var k := |me.outs|;
    var call := job.calls(k);
    && (forall j: nat :: j < |me.outs| ==> me.outs[j] == Result(job, j, r))
    && match me.pc
       case Out => true
       case Collect(i) => call.up && i <= NumKids(job, r) && r <= Reach(job.n, r, i) && me.acc == Fold(job, k, r, Reach(job.n, r, i))
       case AwaitDown => call.down && r > 0
       case Forward(j) => j <= NumKids(job, r) && (j < NumKids(job, r) ==> call.down) && call.keep(me.acc) == Result(job, k, r)
                          && (call.down ==> me.acc == Received(job, k, r))
  }

  ghost predicate Inv<T(!new)>(job: Job<T>, s: State<T>)
  {
    && Shape(job, s)
    && (forall r :: 0 <= r < job.n ==> RankOk(job, r, s.ranks[r]))
    && (forall c :: 0 < c < job.n ==> EdgeOk(job, c, s.ranks[c], s.ranks[Parent(job.n, c)], s.up[c], s.down[c]))
  }

  lemma InitInv<T(!new)>(job: Job<T>, s: State<T>)
    requires Init(job, s)
    ensures Inv(job, s)
  {
    forall c | 0 < c < job.n
      ensures EdgeOk(job, c, s.ranks[c], s.ranks[Parent(job.n, c)], s.up[c], s.down[c])
    {
      assert s.ranks[Parent(job.n, c)].pc == Out;
    }
  }

  // ---- each action keeps the acting rank in order

  lemma RankEnter<T>(job: Job<T>, r: int, me: Rank<T>)
    requires 0 <= r < job.n && RankOk(job, r, me) && me.pc.Out?
    ensures RankOk(job, r, Entered(job, r, me))
  {
    ReachNone(job.n, r);
  }

  lemma RankCombine<T(!new)>(job: Job<T>, r: int, me: Rank<T>, c: int, msg: T)
    requires 0 <= r < job.n && RankOk(job, r, me) && Sound(job)
    requires me.pc.Collect? && me.pc.i > 0 && r < c < job.n
    requires Reach(job.n, r, me.pc.i) == c - 1 && Reach(job.n, r, me.pc.i - 1) == Top(job.n, c)
    requires msg == Fold(job, |me.outs|, c, Top(job.n, c))
    ensures RankOk(job, r, Combined(job, me, msg))
  {
    FoldJoin(job, |me.outs|, r, c - 1, Top(job.n, c));
  }

  lemma RankPass<T>(job: Job<T>, r: int, me: Rank<T>)
    requires 0 <= r < job.n && RankOk(job, r, me) && me.pc == Collect(0)
    ensures RankOk(job, r, Passed(job, r, me))
  {
  }

  lemma RankHear<T>(job: Job<T>, r: int, me: Rank<T>, msg: T)
    requires 0 <= r < job.n && RankOk(job, r, me) && me.pc.AwaitDown?
    requires msg == Received(job, |me.outs|, r)
    ensures RankOk(job, r, Heard(me, msg))
  {
  }

  lemma RankForward<T>(job: Job<T>, r: int, me: Rank<T>)
    requires 0 <= r < job.n && RankOk(job, r, me) && me.pc.Forward? && me.pc.j < NumKids(job, r)
    ensures RankOk(job, r, Forwarded(me))
  {
  }

  lemma RankFinish<T>(job: Job<T>, r: int, me: Rank<T>)
    requires 0 <= r < job.n && RankOk(job, r, me) && me.pc.Forward?
    ensures RankOk(job, r, Finished(job, me))
  {
  }

  // What the i-th child contributes: its interval continues the one covered so far.
  lemma NextChild<T>(job: Job<T>, r: int, i: int)
    requires 0 <= r < job.n && 0 <= i < NumKids(job, r)
    ensures var c := KidRank(job, r, i);
      && c < job.n && Parent(job.n, c) == r && Index(job.n, c) == i
      && Reach(job.n, r, i + 1) == c - 1 && Reach(job.n, r, i) == Top(job.n, c)
  {
    KidFacts(job.n, r, i);
    IndexUnique(job.n, r, i, KidRank(job, r, i));
  }

  lemma RankTakesChild<T(!new)>(job: Job<T>, r: int, me: Rank<T>, c: int, child: Rank<T>, up: seq<T>, down: seq<T>)
    requires 0 <= r < c < job.n && RankOk(job, r, me) && EdgeOk(job, c, child, me, up, down) && Sound(job)
    requires me.pc.Collect? && me.pc.i > 0 && Index(job.n, c) == me.pc.i - 1
    requires Reach(job.n, r, me.pc.i) == c - 1 && Reach(job.n, r, me.pc.i - 1) == Top(job.n, c)
    requires up != []
    ensures RankOk(job, r, Combined(job, me, up[0]))
  {
    TakeAbove(job, c, child, me, me.(pc := Collect(me.pc.i - 1)), up, down);
    RankCombine(job, r, me, c, up[0]);
  }

  lemma RankTakesNext<T(!new)>(job: Job<T>, s: State<T>, r: int)
    requires Inv(job, s) && Sound(job) && 0 <= r < job.n && Enabled(job, s, r, RecvChild)
    ensures RankOk(job, r, Combined(job, s.ranks[r], s.up[KidRank(job, r, s.ranks[r].pc.i - 1)][0]))
  {
    var me := s.ranks[r];
    assert RankOk(job, r, me);
    var c := KidRank(job, r, me.pc.i - 1);
    NextChild(job, r, me.pc.i - 1);
    assert EdgeOk(job, c, s.ranks[c], me, s.up[c], s.down[c]);
    RankTakesChild(job, r, me, c, s.ranks[c], s.up[c], s.down[c]);
  }

  lemma RankTakesParent<T(!new)>(job: Job<T>, s: State<T>, r: int)
    requires Inv(job, s) && 0 <= r < job.n && Enabled(job, s, r, RecvParent)
    ensures RankOk(job, r, Heard(s.ranks[r], s.down[r][0]))
  {
    var me := s.ranks[r];
    assert RankOk(job, r, me);
    assert EdgeOk(job, r, me, s.ranks[Parent(job.n, r)], s.up[r], s.down[r]);
    TakeBelow(job, r, me, me.(pc := Forward(0)), s.ranks[Parent(job.n, r)], s.up[r], s.down[r]);
    RankHear(job, r, me, s.down[r][0]);
  }

  lemma RankStep<T(!new)>(job: Job<T>, s: State<T>, r: int, a: Action)
    requires Inv(job, s) && Sound(job) && 0 <= r < job.n && Enabled(job, s, r, a)
    ensures RankOk(job, r, Apply(job, s, r, a).ranks[r])
  {
    var me := s.ranks[r];
    assert RankOk(job, r, me);
    match a
    case Enter =>
      RankEnter(job, r, me);
    case RecvChild =>
      RankTakesNext(job, s, r);
    case SendUp =>
      RankPass(job, r, me);
    case RecvParent =>
      RankTakesParent(job, s, r);
    case SendChild =>
      RankForward(job, r, me);
    case Leave =>
      RankFinish(job, r, me);
  }

  // ---- each action keeps the edges of the acting rank in order

  // Leaving the upward half of a call, seen from the child end of the edge.
  lemma PassBelow<T>(job: Job<T>, r: int, me: Rank<T>, me': Rank<T>, parent: Rank<T>, up: seq<T>, down: seq<T>)
    requires 0 < r < job.n && EdgeOk(job, r, me, parent, up, down)
    requires me.pc.Out? || me.pc.Collect?
    requires me'.outs == me.outs && me'.pc == AfterUp(job, r, |me.outs|)
    requires job.calls(|me.outs|).up ==> me.acc == Fold(job, |me.outs|, r, Top(job.n, r))
    ensures EdgeOk(job, r, me', parent, if job.calls(|me.outs|).up then up + [me.acc] else up, down)
  {
    var i := Index(job.n, r);
    ChannelPut(job, true, r, up, GotUp(parent, i), SentUp(me));
    if !job.calls(|me.outs|).down {
      ChannelGet(job, false, r, down, GotDown(me), SentDown(parent, i));
    }
  }

  // The same, seen from the parent end.
  lemma PassAbove<T>(job: Job<T>, c: int, child: Rank<T>, me: Rank<T>, me': Rank<T>, up: seq<T>, down: seq<T>)
    requires 0 < c < job.n && EdgeOk(job, c, child, me, up, down)
    requires (me.pc.Out? && !job.calls(|me.outs|).up) || me.pc == Collect(0)
    requires me'.outs == me.outs && me'.pc == AfterUp(job, Parent(job.n, c), |me.outs|)
    ensures EdgeOk(job, c, child, me', up, down)
  {
    var i := Index(job.n, c);
    if me.pc.Out? {
      ChannelGet(job, true, c, up, GotUp(me, i), SentUp(child));
    }
    if !job.calls(|me.outs|).down {
      ChannelPut(job, false, c, down, GotDown(child), SentDown(me, i));
    }
  }

  lemma TakeAbove<T>(job: Job<T>, c: int, child: Rank<T>, me: Rank<T>, me': Rank<T>, up: seq<T>, down: seq<T>)
    requires 0 < c < job.n && EdgeOk(job, c, child, me, up, down)
    requires me.pc.Collect? && me.pc.i > 0 && me'.outs == me.outs && me'.pc == Collect(me.pc.i - 1)
    requires Index(job.n, c) == me.pc.i - 1 && job.calls(|me.outs|).up && up != []
    ensures up[0] == Fold(job, |me.outs|, c, Top(job.n, c))
    ensures EdgeOk(job, c, child, me', up[1..], down)
  {
    ChannelGet(job, true, c, up, GotUp(me, me.pc.i - 1), SentUp(child));
  }

  lemma TakeBelow<T>(job: Job<T>, r: int, me: Rank<T>, me': Rank<T>, parent: Rank<T>, up: seq<T>, down: seq<T>)
    requires 0 < r < job.n && EdgeOk(job, r, me, parent, up, down)
    requires me.pc.AwaitDown? && me'.outs == me.outs && me'.pc == Forward(0)
    requires job.calls(|me.outs|).down && down != []
    ensures down[0] == Received(job, |me.outs|, r)
    ensures EdgeOk(job, r, me', parent, up, down[1..])
  {
    ChannelGet(job, false, r, down, GotDown(me), SentDown(parent, Index(job.n, r)));
  }

  lemma GiveAbove<T>(job: Job<T>, c: int, child: Rank<T>, me: Rank<T>, me': Rank<T>, up: seq<T>, down: seq<T>, msg: T)
    requires 0 < c < job.n && EdgeOk(job, c, child, me, up, down)
    requires me.pc.Forward? && me'.outs == me.outs && me'.pc == Forward(me.pc.j + 1)
    requires Index(job.n, c) == me.pc.j && job.calls(|me.outs|).down && msg == Received(job, |me.outs|, c)
    ensures EdgeOk(job, c, child, me', up, down + [msg])
  {
    ChannelPut(job, false, c, down, GotDown(child), SentDown(me, me.pc.j));
  }

  // A step that moves no counter of the edge.
  lemma EdgeSame<T>(job: Job<T>, c: int, me: Rank<T>, parent: Rank<T>, me': Rank<T>, parent': Rank<T>, up: seq<T>, down: seq<T>)
    requires 0 < c < job.n && EdgeOk(job, c, me, parent, up, down)
    requires SentUp(me') == SentUp(me) && GotDown(me') == GotDown(me)
    requires GotUp(parent', Index(job.n, c)) == GotUp(parent, Index(job.n, c))
    requires SentDown(parent', Index(job.n, c)) == SentDown(parent, Index(job.n, c))
    ensures EdgeOk(job, c, me', parent', up, down)
  {
  }

  // A step of rank r as the child end of an edge.
  lemma EdgeStepBelow<T(!new)>(job: Job<T>, s: State<T>, r: int, a: Action)
    requires Inv(job, s) && 0 < r < job.n && Enabled(job, s, r, a)
    ensures var s' := Apply(job, s, r, a);
      EdgeOk(job, r, s'.ranks[r], s.ranks[Parent(job.n, r)], s'.up[r], s'.down[r])
  {
    var me := s.ranks[r];
    var parent := s.ranks[Parent(job.n, r)];
    assert EdgeOk(job, r, me, parent, s.up[r], s.down[r]);
    assert RankOk(job, r, me);
    var me' := Apply(job, s, r, a).ranks[r];
    if a == SendUp || (a == Enter && !job.calls(|me.outs|).up) {
      PassBelow(job, r, me, me', parent, s.up[r], s.down[r]);
    } else if a == RecvParent {
      TakeBelow(job, r, me, me', parent, s.up[r], s.down[r]);
    } else {
      EdgeSame(job, r, me, parent, me', parent, s.up[r], s.down[r]);
      OwnEdge(job, s, r, a);
    }
  }

  // Exchanges with the children do not touch the rank's own upward edge.
  lemma OwnEdge<T(!new)>(job: Job<T>, s: State<T>, r: int, a: Action)
    requires Inv(job, s) && 0 < r < job.n && Enabled(job, s, r, a) && a != SendUp && a != RecvParent
    ensures var s' := Apply(job, s, r, a);
      s'.up[r] == s.up[r] && s'.down[r] == s.down[r]
  {
  }

  // A step of rank r as the parent end of the edge to its child c.
  lemma EdgeStepAbove<T(!new)>(job: Job<T>, s: State<T>, r: int, a: Action, c: int)
    requires Shape(job, s) && 0 <= r < job.n && Enabled(job, s, r, a)
    requires 0 < c < job.n && Parent(job.n, c) == r
    requires RankOk(job, r, s.ranks[r]) && EdgeOk(job, c, s.ranks[c], s.ranks[r], s.up[c], s.down[c])
    ensures var s' := Apply(job, s, r, a);
      EdgeOk(job, c, s.ranks[c], s'.ranks[r], s'.up[c], s'.down[c])
  {
    var me := s.ranks[r];
    var child := s.ranks[c];
    var i := Index(job.n, c);
    var me' := Apply(job, s, r, a).ranks[r];
    if a == SendUp || (a == Enter && !job.calls(|me.outs|).up) {
      PassAbove(job, c, child, me, me', s.up[c], s.down[c]);
    } else if a == RecvChild && i == me.pc.i - 1 {
      TakeAbove(job, c, child, me, me', s.up[c], s.down[c]);
    } else if a == SendChild && i == me.pc.j {
      GiveAbove(job, c, child, me, me', s.up[c], s.down[c], job.calls(|me.outs|).part(job.n, r, i, me.acc));
    } else {
      EdgeSame(job, c, child, me, child, me', s.up[c], s.down[c]);
      UntouchedChild(job, s, r, a, c);
    }
  }

  // Exchanging a message with one child leaves the edges to the others alone.
  lemma UntouchedChild<T(!new)>(job: Job<T>, s: State<T>, r: int, a: Action, c: int)
    requires Shape(job, s) && 0 <= r < job.n && Enabled(job, s, r, a) && a != SendUp
    requires 0 < c < job.n && Parent(job.n, c) == r
    requires a == RecvChild ==> Index(job.n, c) != s.ranks[r].pc.i - 1
    requires a == SendChild ==> Index(job.n, c) != s.ranks[r].pc.j
    ensures var s' := Apply(job, s, r, a);
      s'.up[c] == s.up[c] && s'.down[c] == s.down[c]
  {
    var pc := s.ranks[r].pc;
    if a == RecvChild {
      IndexUnique(job.n, r, pc.i - 1, KidRank(job, r, pc.i - 1));
      assert KidRank(job, r, pc.i - 1) != c;
    } else if a == SendChild {
      IndexUnique(job.n, r, pc.j, KidRank(job, r, pc.j));
      assert KidRank(job, r, pc.j) != c;
    }
  }

  lemma OtherRank<T(!new)>(job: Job<T>, s: State<T>, r: int, a: Action, x: int)
    requires Shape(job, s) && 0 <= r < job.n && Enabled(job, s, r, a) && 0 <= x < job.n && x != r
    ensures Apply(job, s, r, a).ranks[x] == s.ranks[x]
  {
  }

  lemma StepInv<T(!new)>(job: Job<T>, s: State<T>, r: int, a: Action)
    requires Inv(job, s) && Sound(job) && 0 <= r < job.n && Enabled(job, s, r, a)
    ensures Inv(job, Apply(job, s, r, a))
  {
    var s' := Apply(job, s, r, a);
    forall x | 0 <= x < job.n
      ensures RankOk(job, x, s'.ranks[x])
    {
      if x == r {
        RankStep(job, s, r, a);
      } else {
        OtherRank(job, s, r, a, x);
      }
    }
    forall c | 0 < c < job.n
      ensures EdgeOk(job, c, s'.ranks[c], s'.ranks[Parent(job.n, c)], s'.up[c], s'.down[c])
    {
      EdgeStep(job, s, r, a, c);
    }
  }

  lemma EdgeStep<T(!new)>(job: Job<T>, s: State<T>, r: int, a: Action, c: int)
    requires Inv(job, s) && 0 <= r < job.n && Enabled(job, s, r, a) && 0 < c < job.n
    ensures var s' := Apply(job, s, r, a);
      EdgeOk(job, c, s'.ranks[c], s'.ranks[Parent(job.n, c)], s'.up[c], s'.down[c])
  {
    assert EdgeOk(job, c, s.ranks[c], s.ranks[Parent(job.n, c)], s.up[c], s.down[c]);
    if c == r {
      EdgeStepBelow(job, s, r, a);
    } else if Parent(job.n, c) == r {
      assert RankOk(job, r, s.ranks[r]);
      EdgeStepAbove(job, s, r, a, c);
    } else {
      OtherEdge(job, s, r, a, c);
    }
  }

  // A step of rank r leaves the channels of every edge it is not an end of alone.
  lemma OtherEdge<T(!new)>(job: Job<T>, s: State<T>, r: int, a: Action, c: int)
    requires Inv(job, s) && 0 <= r < job.n && Enabled(job, s, r, a)
    requires 0 < c < job.n && c != r && Parent(job.n, c) != r
    ensures var s' := Apply(job, s, r, a);
      s'.up[c] == s.up[c] && s'.down[c] == s.down[c]
  {
    var pc := s.ranks[r].pc;
    if a == RecvChild {
      KidFacts(job.n, r, pc.i - 1);
    } else if a == SendChild {
      KidFacts(job.n, r, pc.j);
    }
  }

  lemma {:induction false} RunInv<T(!new)>(job: Job<T>, tr: seq<State<T>>, i: nat)
    requires Run(job, tr) && Sound(job) && i < |tr|
    ensures Inv(job, tr[i])
  {
    if i == 0 {
      InitInv(job, tr[0]);
    } else {
      RunInv(job, tr, i - 1);
      assert Next(job, tr[i - 1], tr[i - 1 + 1]);
      var r, a :| 0 <= r < job.n && Enabled(job, tr[i - 1], r, a) && tr[i] == Apply(job, tr[i - 1], r, a);
      StepInv(job, tr[i - 1], r, a);
    }
  }

  // ------------------------------------------------------------ main theorems

  /** In every interleaving, every rank leaves every call with the value that the
      call specifies; the value depends on the inputs alone, not on the schedule. */
  lemma ResultsAreScheduleIndependent<T(!new)>(job: Job<T>, tr: seq<State<T>>, i: nat, r: int, k: nat)
    requires Run(job, tr) && Sound(job) && i < |tr| && 0 <= r < job.n && |tr[i].ranks| == job.n
    requires k < |tr[i].ranks[r].outs|
    ensures tr[i].ranks[r].outs[k] == Result(job, k, r)
  {
    RunInv(job, tr, i);
    assert RankOk(job, r, tr[i].ranks[r]);
  }

  // Has the rank begun call k (and perhaps finished it)?
  predicate HasEntered<T>(me: Rank<T>, k: nat)
  {
    |me.outs| > k || (|me.outs| == k && !me.pc.Out?)
  }

  // Completion of the upward half of call k spreads from r to its whole subtree.
  lemma {:induction false} UpCovers<T(!new)>(job: Job<T>, s: State<T>, r: int, x: int, k: nat)
    requires Inv(job, s) && 0 <= r < job.n && r <= x <= Top(job.n, r)
    requires job.calls(k).up && SentUp(s.ranks[r]) > k
    ensures SentUp(s.ranks[x]) > k
    decreases x
  {
    if x != r {
      SubtreeIsInterval(job.n, r, x);
      var p := Parent(job.n, x);
      UpCovers(job, s, r, p, k);
      assert EdgeOk(job, x, s.ranks[x], s.ranks[p], s.up[x], s.down[x]);
      assert GotUp(s.ranks[p], Index(job.n, x)) > k;
      assert Flag(job, true, k);
    }
  }

  // A rank that has heard from its parent in call k shows that rank 0 has finished
  // the upward half.
  lemma {:induction false} DownFromRoot<T(!new)>(job: Job<T>, s: State<T>, r: int, k: nat)
    requires Inv(job, s) && 0 <= r < job.n
    requires job.calls(k).down && GotDown(s.ranks[r]) > k
    ensures SentUp(s.ranks[0]) > k
    decreases r
  {
    if r > 0 {
      var p := Parent(job.n, r);
      assert EdgeOk(job, r, s.ranks[r], s.ranks[p], s.up[r], s.down[r]);
      assert Flag(job, false, k);
      DownFromRoot(job, s, p, k);
    }
  }

  /** Barrier safety.  Call k goes up and down the tree (cobo_barrier, cobo_allreduce):
      in every interleaving, and whatever the calls before and after it are, no rank
      has left call k unless every rank has entered it. */
  lemma BarrierSafety<T(!new)>(job: Job<T>, tr: seq<State<T>>, i: nat, r: int, x: int, k: nat)
    requires Run(job, tr) && Sound(job) && i < |tr|
    requires 0 <= r < job.n && 0 <= x < job.n && |tr[i].ranks| == job.n
    requires job.calls(k).up && job.calls(k).down
    requires |tr[i].ranks[r].outs| > k
    ensures HasEntered(tr[i].ranks[x], k)
  {
    var s := tr[i];
    RunInv(job, tr, i);
    DownFromRoot(job, s, r, k);
    UpCovers(job, s, 0, x, k);
  }

  // ------------------------------------------------------------- no deadlock

  // Rank r can take some step.
  ghost predicate CanStep<T(!new)>(job: Job<T>, s: State<T>, r: int)
    requires Shape(job, s) && 0 <= r < job.n
  {
    exists a :: Enabled(job, s, r, a)
  }

  // If a rank waits for a child in the least advanced call, something below it can run.
  lemma {:induction false} StuckBelow<T(!new)>(job: Job<T>, s: State<T>, r: int, k: nat) returns (x: int)
    requires Inv(job, s) && 0 <= r < job.n
    requires forall y :: 0 <= y < job.n ==> |s.ranks[y].outs| >= k
    requires |s.ranks[r].outs| == k && (s.ranks[r].pc.Out? || s.ranks[r].pc.Collect?)
    ensures 0 <= x < job.n && |s.ranks[x].outs| == k && CanStep(job, s, x)
    decreases job.n - r
  {
    var me := s.ranks[r];
    assert RankOk(job, r, me);
    x := r;
    if me.pc.Out? {
      assert Enabled(job, s, r, Enter);
    } else if me.pc.i == 0 {
      assert Enabled(job, s, r, SendUp);
    } else {
      var i := me.pc.i - 1;
      var c := KidRank(job, r, i);
      KidFacts(job.n, r, i);
      IndexUnique(job.n, r, i, c);
      if s.up[c] != [] {
        assert Enabled(job, s, r, RecvChild);
      } else {
        assert EdgeOk(job, c, s.ranks[c], me, s.up[c], s.down[c]);
        if SentUp(s.ranks[c]) > k {
          MsgsHead(job, true, c, k, SentUp(s.ranks[c]));
        }
        x := StuckBelow(job, s, c, k);
      }
    }
  }

  // If a rank waits for its parent in the least advanced call, some rank can run.
  lemma {:induction false} StuckAbove<T(!new)>(job: Job<T>, s: State<T>, r: int, k: nat) returns (x: int)
    requires Inv(job, s) && 0 <= r < job.n
    requires forall y :: 0 <= y < job.n ==> |s.ranks[y].outs| >= k
    requires |s.ranks[r].outs| == k
    ensures 0 <= x < job.n && |s.ranks[x].outs| == k && CanStep(job, s, x)
    decreases r
  {
    var me := s.ranks[r];
    assert RankOk(job, r, me);
    x := r;
    match me.pc
    case Out =>
      x := StuckBelow(job, s, r, k);
    case Collect(i) =>
      x := StuckBelow(job, s, r, k);
    case Forward(j) =>
      if j < NumKids(job, r) {
        KidFacts(job.n, r, j);
        assert Enabled(job, s, r, SendChild);
      } else {
        assert Enabled(job, s, r, Leave);
      }
    case AwaitDown =>
      if s.down[r] != [] {
        assert Enabled(job, s, r, RecvParent);
      } else {
        var p := Parent(job.n, r);
        assert EdgeOk(job, r, me, s.ranks[p], s.up[r], s.down[r]);
        if SentDown(s.ranks[p], Index(job.n, r)) > k {
          MsgsHead(job, false, r, k, SentDown(s.ranks[p], Index(job.n, r)));
        }
        x := StuckAbove(job, s, p, k);
      }
  }

  lemma {:induction false} LeastAdvanced<T(!new)>(job: Job<T>, s: State<T>, m: int) returns (r: int)
    requires Shape(job, s) && 0 < m <= job.n
    ensures 0 <= r < m
    ensures forall y :: 0 <= y < m ==> |s.ranks[y].outs| >= |s.ranks[r].outs|
    decreases m
  {
    r := m - 1;
    if m > 1 {
      var q := LeastAdvanced(job, s, m - 1);
      if |s.ranks[q].outs| < |s.ranks[r].outs| {
        r := q;
      }
    }
  }

  /** No deadlock: in every reachable state, a rank that has completed the fewest calls
      or one that it waits for can take a step, so a run in which every rank makes
      the same number of calls never gets stuck before they are all complete. */
  lemma NeverStuck<T(!new)>(job: Job<T>, tr: seq<State<T>>, i: nat, calls: nat) returns (x: int)
    requires Run(job, tr) && Sound(job) && i < |tr|
    requires Shape(job, tr[i])
    requires exists y :: 0 <= y < job.n && |tr[i].ranks[y].outs| < calls
    ensures 0 <= x < job.n && |tr[i].ranks[x].outs| < calls && CanStep(job, tr[i], x)
  {
    RunInv(job, tr, i);
    var r := LeastAdvanced(job, tr[i], job.n);
    x := StuckAbove(job, tr[i], r, |tr[i].ranks[r].outs|);
  }
}
