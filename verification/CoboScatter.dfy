/** Where cobo_scatter sends each block of the root's buffer (src/cobo/cobo.c).  A rank
    hands out its buffer front to back in the order of its child array, so block b
    goes to the b-th rank of a pre-order walk of the tree. */
module CoboScatter {
  import opened Bytes
  import opened CoboTree
  import opened CoboCollectives
  import opened CoboCalls

  // The subtrees of the children before j are the ranks above what is still to come.
  lemma {:induction false} InclBeforeReach(n: int, r: int, j: int)
    requires 0 <= r < n && 0 <= j <= |Children(n, r)|
    ensures InclBefore(n, r, j) == Top(n, r) - Reach(n, r, j) >= 0
    decreases j
  {
    if j > 0 {
      InclBeforeReach(n, r, j - 1);
      KidFacts(n, r, j - 1);
    }
  }

  // Pre-order walk below rank r, children in cobo_child order.
  function Preorder(n: int, r: int): seq<int>
    requires 0 <= r < n
    decreases n - r, 1, 0
  {
    [r] + PreorderKids(n, r, 0)
  }

  // The part of the walk below the children j, j+1, ..
  function PreorderKids(n: int, r: int, j: int): seq<int>
    requires 0 <= r < n && 0 <= j <= |Children(n, r)|
    decreases n - r, 0, |Children(n, r)| - j
  {
    if j == |Children(n, r)| then []
    else
      KidFacts(n, r, j);
      Preorder(n, Children(n, r)[j].rank) + PreorderKids(n, r, j + 1)
  }

  // The number of blocks handed out before rank r's own.
  ghost function Position(n: int, r: int): (p: nat)
    requires 0 <= r < n
    decreases r
  {
    if r == 0 then 0
    else
      InclBeforeReach(n, Parent(n, r), Index(n, r));
      Position(n, Parent(n, r)) + 1 + InclBefore(n, Parent(n, r), Index(n, r))
  }

  lemma {:induction false} PreorderLength(n: int, r: int)
    requires 0 <= r < n
    ensures |Preorder(n, r)| == Size(n, r)
    decreases n - r, 1, 0
  {
    PreorderKidsLength(n, r, 0);
  }

  lemma {:induction false} PreorderKidsLength(n: int, r: int, j: int)
    requires 0 <= r < n && 0 <= j <= |Children(n, r)|
    ensures |PreorderKids(n, r, j)| == Reach(n, r, j) - r
    decreases n - r, 0, |Children(n, r)| - j
  {
    if j == |Children(n, r)| {
      ReachNone(n, r);
    } else {
      KidFacts(n, r, j);
      PreorderLength(n, Children(n, r)[j].rank);
      PreorderKidsLength(n, r, j + 1);
    }
  }

  /** The b-th rank of the walk below q is the rank whose block comes b places after
      the block of q. */
  lemma {:induction false} WalkPosition(n: int, q: int, b: int)
    requires 0 <= q < n && 0 <= b < |Preorder(n, q)|
    ensures q <= Preorder(n, q)[b] <= Top(n, q)
    ensures Position(n, Preorder(n, q)[b]) == Position(n, q) + b
    decreases n - q, 1, 0
  {
    if b > 0 {
      KidsWalkPosition(n, q, 0, b - 1);
    }
  }

  lemma {:induction false} KidsWalkPosition(n: int, q: int, j: int, b: int)
    requires 0 <= q < n && 0 <= j <= |Children(n, q)| && 0 <= b < |PreorderKids(n, q, j)|
    ensures q < PreorderKids(n, q, j)[b] <= Top(n, q)
    ensures Position(n, PreorderKids(n, q, j)[b]) == Position(n, q) + 1 + InclBefore(n, q, j) + b
    decreases n - q, 0, |Children(n, q)| - j
  {
    var c := Children(n, q)[j].rank;
    KidFacts(n, q, j);
    IndexUnique(n, q, j, c);
    PreorderLength(n, c);
    if b < |Preorder(n, c)| {
      WalkPosition(n, c, b);
      InclBeforeReach(n, q, j);
    } else {
      KidsWalkPosition(n, q, j + 1, b - |Preorder(n, c)|);
    }
  }

  lemma {:induction false} PositionBound(n: int, r: int)
    requires 0 <= r < n
    ensures Position(n, r) + Size(n, r) <= n
    decreases r
  {
    if r > 0 {
      var p := Parent(n, r);
      PositionBound(n, p);
      InclBeforeReach(n, p, Index(n, r));
      KidFacts(n, p, Index(n, r));
    }
  }

  // Rank r stands at its own position in the walk, so no two ranks share one.
  lemma {:induction false} PositionInWalk(n: int, q: int, r: int)
    requires 0 <= q <= r < n && r <= Top(n, q)
    ensures Position(n, q) <= Position(n, r) < Position(n, q) + |Preorder(n, q)|
    ensures Preorder(n, q)[Position(n, r) - Position(n, q)] == r
    decreases n - q, 1, 0
  {
    PreorderLength(n, q);
    if r > q {
      KidsWalkFinds(n, q, 0, r);
    }
  }

  lemma {:induction false} KidsWalkFinds(n: int, q: int, j: int, r: int)
    requires 0 <= q < r < n && 0 <= j <= |Children(n, q)| && r <= Reach(n, q, j)
    ensures var b := Position(n, r) - Position(n, q) - 1 - InclBefore(n, q, j);
      0 <= b < |PreorderKids(n, q, j)| && PreorderKids(n, q, j)[b] == r
    decreases n - q, 0, |Children(n, q)| - j
  {
    ReachNone(n, q);
    var c := Children(n, q)[j].rank;
    NextSubtree(n, q, j);
    if c <= r {
      PositionInWalk(n, c, r);
    } else {
      KidsWalkFinds(n, q, j + 1, r);
    }
  }

  // The walk below the children from j on starts with the subtree of child j.
  lemma NextSubtree(n: int, q: int, j: int)
    requires 0 <= q < n && 0 <= j < |Children(n, q)|
    ensures var c := Children(n, q)[j].rank;
      && q < c < n
      && Top(n, c) == Reach(n, q, j) && Reach(n, q, j + 1) == c - 1
      && PreorderKids(n, q, j) == Preorder(n, c) + PreorderKids(n, q, j + 1)
      && |Preorder(n, c)| == Children(n, q)[j].incl
      && Position(n, c) == Position(n, q) + 1 + InclBefore(n, q, j)
      && InclBefore(n, q, j + 1) == InclBefore(n, q, j) + Children(n, q)[j].incl
  {
    var c := Children(n, q)[j].rank;
    KidFacts(n, q, j);
    IndexUnique(n, q, j, c);
    PreorderLength(n, c);
  }

  /** The blocks are dealt out one to one: block b goes to the b-th rank of the walk,
      and rank r is the b-th rank of the walk exactly for b = Position(n, r). */
  lemma ScatterIsBijective(n: int, r: int, b: int)
    requires 0 <= r < n && 0 <= b < n
    ensures |Preorder(n, 0)| == n && 0 <= Preorder(n, 0)[b] < n
    ensures Preorder(n, 0)[b] == r <==> Position(n, r) == b
  {
    PreorderLength(n, 0);
    WalkPosition(n, 0, b);
    PositionInWalk(n, 0, r);
  }

  lemma SliceOfSlice<T>(s: seq<T>, at: nat, len: nat, at2: nat, len2: nat)
    requires at + len <= |s| && at2 + len2 <= len
    ensures Slice(Slice(s, at, len), at2, len2) == Slice(s, at + at2, len2)
  {
    var t := s[at..at + len];
    var u, v := t[at2..at2 + len2], s[at + at2..at + at2 + len2];
    forall i | 0 <= i < len2
      ensures u[i] == v[i]
    {
      assert u[i] == t[at2 + i] == s[at + at2 + i];
    }
    assert u == v;
  }

  // Blocks before .. before + size' of a run of size blocks that starts at block pos.
  lemma BlocksOfBlocks<T>(s: seq<T>, sc: nat, n: nat, pos: nat, size: nat, before: nat, size': nat)
    requires |s| == Span(sc, n) && pos + size <= n && before + size' <= size
    ensures Slice(Slice(s, Span(sc, pos), Span(sc, size)), Span(sc, before), Span(sc, size')) ==
            Slice(s, Span(sc, pos + before), Span(sc, size'))
  {
    SpanMono(sc, pos + size, n);
    SpanSum(sc, pos, size);
    SpanMono(sc, before + size', size);
    SpanSum(sc, before, size');
    SpanSum(sc, pos, before);
    SliceOfSlice(s, Span(sc, pos), Span(sc, size), Span(sc, before), Span(sc, size'));
  }

  // Rank r receives the blocks of its subtree.
  lemma {:induction false} ScatterReceived(n: int, prog: nat -> BufCall, input: (int, nat) -> seq<Byte>, k: nat, r: int)
    requires 0 <= r < n && prog(k).Scatter? && |input(0, k)| == Span(prog(k).sendcount, n)
    ensures var sc := prog(k).sendcount;
      Received(BufJob(n, prog, input), k, r) == Slice(input(0, k), Span(sc, Position(n, r)), Span(sc, Size(n, r)))
    decreases r
  {
    var job := BufJob(n, prog, input);
    var sc := prog(k).sendcount;
    assert job.calls(k) == BufProgram(prog(k));
    if r == 0 {
      assert Received(job, k, 0) == input(0, k);
    } else {
      var p := Parent(n, r);
      var j := Index(n, r);
      ScatterReceived(n, prog, input, k, p);
      assert Received(job, k, r) == Portion(sc, n, p, j, Received(job, k, p));
      PortionOfSlice(n, sc, p, r, input(0, k));
    }
  }

  lemma PortionOfSlice(n: int, sc: nat, p: int, r: int, root: seq<Byte>)
    requires 0 < r < n && p == Parent(n, r) && |root| == Span(sc, n)
    ensures Portion(sc, n, p, Index(n, r), Slice(root, Span(sc, Position(n, p)), Span(sc, Size(n, p)))) ==
            Slice(root, Span(sc, Position(n, r)), Span(sc, Size(n, r)))
  {
    PlaceInParent(n, p, r);
    BlocksOfBlocks(root, sc, n, Position(n, p), Size(n, p), 1 + InclBefore(n, p, Index(n, r)), Size(n, r));
  }

  // The subtree of r lies inside the run of blocks of its parent.
  lemma PlaceInParent(n: int, p: int, r: int)
    requires 0 < r < n && p == Parent(n, r)
    ensures Children(n, p)[Index(n, r)].incl == Size(n, r)
    ensures 0 <= InclBefore(n, p, Index(n, r))
    ensures 1 + InclBefore(n, p, Index(n, r)) + Size(n, r) <= Size(n, p)
    ensures Position(n, p) + Size(n, p) <= n
  {
    var j := Index(n, r);
    KidFacts(n, p, j);
    InclBeforeReach(n, p, j);
    PositionBound(n, p);
  }

  /** cobo_scatter: in every interleaving, rank r receives the block that stands at
      its place in the pre-order walk. */
  lemma ScatterDeliversPreorder(n: int, prog: nat -> BufCall, input: (int, nat) -> seq<Byte>,
                                tr: seq<State<seq<Byte>>>, i: nat, r: int, k: nat)
    requires Run(BufJob(n, prog, input), tr) && i < |tr| && 0 <= r < n && |tr[i].ranks| == n
    requires k < |tr[i].ranks[r].outs| && prog(k).Scatter? && |input(0, k)| == Span(prog(k).sendcount, n)
    ensures tr[i].ranks[r].outs[k] == Slice(input(0, k), Span(prog(k).sendcount, Position(n, r)), prog(k).sendcount)
    ensures |tr[i].ranks[r].outs[k]| == prog(k).sendcount
  {
    var job := BufJob(n, prog, input);
    var sc := prog(k).sendcount;
    BufJobSound(n, prog, input);
    ResultsAreScheduleIndependent(job, tr, i, r, k);
    assert job.calls(k) == BufProgram(prog(k));
    ScatterReceived(n, prog, input, k, r);
    PositionBound(n, r);
    FirstBlock(input(0, k), sc, n, Position(n, r), Size(n, r));
  }

  lemma FirstBlock<T>(s: seq<T>, sc: nat, n: nat, pos: nat, size: nat)
    requires |s| == Span(sc, n) && pos + size <= n && 1 <= size
    ensures Slice(Slice(s, Span(sc, pos), Span(sc, size)), 0, sc) == Slice(s, Span(sc, pos), sc)
    ensures |Slice(s, Span(sc, pos), sc)| == sc
  {
    BlockFits(sc, n, pos, size);
    SliceOfSlice(s, Span(sc, pos), Span(sc, size), 0, sc);
  }

  lemma BlockFits(sc: nat, n: nat, pos: nat, size: nat)
    requires pos + size <= n && 1 <= size
    ensures Span(sc, pos) + Span(sc, size) <= Span(sc, n) && sc <= Span(sc, size)
  {
    SpanMono(sc, pos + size, n);
    SpanSum(sc, pos, size);
  }

  /** The interface comment calls it MPI-like, which gives rank r the r-th chunk.  That
      holds for every rank exactly when there are at most three ranks. */
  lemma ScatterInRankOrder(n: int)
    requires n > 0
    ensures (forall r :: 0 <= r < n ==> Position(n, r) == r) <==> n <= 3
  {
    if n <= 3 {
      forall r | 0 <= r < n
        ensures Position(n, r) == r
      {
        SmallTree(n, r);
      }
    } else {
      FirstChildOfRoot(n);
      assert Position(n, Mid(0, n - 1)) != Mid(0, n - 1);
    }
  }

  // The first child of rank 0 receives block 1, whatever its rank is.
  lemma FirstChildOfRoot(n: int)
    requires n > 1
    ensures Position(n, Mid(0, n - 1)) == 1
  {
    var c := Mid(0, n - 1);
    assert Children(n, 0)[0].rank == c;
    IndexUnique(n, 0, 0, c);
  }

  lemma SmallTree(n: int, r: int)
    requires 0 <= r < n <= 3
    ensures Position(n, r) == r
  {
    if r >= 1 {
      FirstChildOfRoot(n);
      if r == 2 {
        OnlyChildOfOne(n);
      }
    }
  }

  // With three ranks, rank 2 hangs below rank 1.
  lemma OnlyChildOfOne(n: int)
    requires n == 3
    ensures Position(n, 2) == Position(n, 1) + 1
  {
    var m := Mid(0, n - 1);
    assert m == 1;
    assert Top(n, 1) == TopIn(m, n - 1, 1) == n - 1;
    var kids := Kids(1, n - 1);
    assert kids[0] == Kid(2, 1);
    assert IsKid(n, 1, 0, 2);
    IndexUnique(n, 1, 0, 2);
  }
}
