/** The COBO communication tree: every rank finds its parent and its children by
    bisecting [0, nprocs - 1] on its own (src/cobo/cobo.c).  The functions describe
    the tree from the point of view of an interval; the lemmas show that the
    independently computed views fit together.
 */
module CoboTree {
  import opened Bits

  // A child rank together with the number of ranks in its subtree
  // (cobo_child[i] and cobo_child_incl[i]).
  datatype Kid = Kid(rank: int, incl: int)

  // The split point of a non-trivial interval.
  function Mid(lo: int, hi: int): (m: int)
    requires lo < hi
    ensures lo < m <= hi
  {
    (hi - lo) / 2 + (hi - lo) % 2 + lo
  }

  // The children that rank lo collects while it is the low end of [lo, hi].
  function Kids(lo: int, hi: int): (ks: seq<Kid>)
    ensures forall i :: 0 <= i < |ks| ==> lo < ks[i].rank && ks[i].incl >= 1
    decreases hi - lo
  {
    if lo >= hi then []
    else [Kid(Mid(lo, hi), hi - Mid(lo, hi) + 1)] + Kids(lo, Mid(lo, hi) - 1)
  }

  // The high end of the interval at the moment it first starts at rank me.
  function TopIn(lo: int, hi: int, me: int): (t: int)
    requires lo <= me <= hi
    ensures me <= t <= hi
    decreases hi - lo
  {
    if me == lo then hi
    else if Mid(lo, hi) <= me then TopIn(Mid(lo, hi), hi, me)
    else TopIn(lo, Mid(lo, hi) - 1, me)
  }

  // The low end of the interval that rank me splits off.
  function ParentIn(lo: int, hi: int, me: int): (p: int)
    requires lo < me <= hi
    ensures lo <= p < me
    decreases hi - lo
  {
    var m := Mid(lo, hi);
    if m == me then lo
    else if m < me then ParentIn(m, hi, me)
    else ParentIn(lo, m - 1, me)
  }

  // How many splits with rank me in the upper half separate me from lo.
  function DepthIn(lo: int, hi: int, me: int): (d: nat)
    requires lo <= me <= hi
    decreases hi - lo
  {
    if me == lo then 0
    else if Mid(lo, hi) <= me then 1 + DepthIn(Mid(lo, hi), hi, me)
    else DepthIn(lo, Mid(lo, hi) - 1, me)
  }

  // The tree over ranks 0 .. n-1.
  function Top(n: int, r: int): (t: int)
    requires 0 <= r < n
    ensures r <= t < n
  {
    TopIn(0, n - 1, r)
  }

  function Parent(n: int, r: int): (p: int)
    requires 0 < r < n
    ensures 0 <= p < r
  {
    ParentIn(0, n - 1, r)
  }

  function Children(n: int, r: int): seq<Kid>
    requires 0 <= r < n
  {
    Kids(r, Top(n, r))
  }

  function Depth(n: int, r: int): nat
    requires 0 <= r < n
    decreases r
  {
    if r == 0 then 0 else 1 + Depth(n, Parent(n, r))
  }

  // Rank c is the i-th child of rank r.
  predicate IsKid(n: int, r: int, i: int, c: int)
    requires 0 <= r < n
  {
    0 <= i < |Children(n, r)| && Children(n, r)[i].rank == c
  }

  // Largest rank covered once the children i, i+1, .. have been visited:
  // everything below the next child still to visit.
  function Reach(n: int, r: int, i: int): int
    requires 0 <= r < n
    requires 0 <= i <= |Children(n, r)|
  {
    if i == 0 then Top(n, r) else Children(n, r)[i - 1].rank - 1
  }

  // ---------------------------------------------------------------- intervals

  // Within [lo, hi] the children of lo tile [lo+1, hi], the last child first.
  lemma {:induction false} KidsTile(lo: int, hi: int)
    requires lo <= hi
    ensures lo < hi ==> |Kids(lo, hi)| > 0
    ensures |Kids(lo, hi)| > 0 ==> Kids(lo, hi)[|Kids(lo, hi)| - 1].rank == lo + 1
    ensures forall i :: 0 <= i < |Kids(lo, hi)| ==>
      Kids(lo, hi)[i].rank + Kids(lo, hi)[i].incl ==
        if i == 0 then hi + 1 else Kids(lo, hi)[i - 1].rank
    decreases hi - lo
  {
    if lo < hi {
      var m := Mid(lo, hi);
      KidsTile(lo, m - 1);
      var rest := Kids(lo, m - 1);
      assert Kids(lo, hi) == [Kid(m, hi - m + 1)] + rest;
      forall i | 0 <= i < |Kids(lo, hi)|
        ensures Kids(lo, hi)[i].rank + Kids(lo, hi)[i].incl ==
          if i == 0 then hi + 1 else Kids(lo, hi)[i - 1].rank
      {
        if i > 0 {
          assert Kids(lo, hi)[i] == rest[i - 1];
        }
      }
    }
  }

  // A child listed by the low end of an interval sees the same interval itself.
  lemma {:induction false} KidTop(lo: int, hi: int, i: int)
    requires lo <= hi
    requires 0 <= i < |Kids(lo, hi)|
    ensures lo < Kids(lo, hi)[i].rank <= hi
    ensures ParentIn(lo, hi, Kids(lo, hi)[i].rank) == lo
    ensures TopIn(lo, hi, Kids(lo, hi)[i].rank) == Kids(lo, hi)[i].rank + Kids(lo, hi)[i].incl - 1
    decreases hi - lo
  {
    var m := Mid(lo, hi);
    if i > 0 {
      assert Kids(lo, hi)[i] == Kids(lo, m - 1)[i - 1];
      KidTop(lo, m - 1, i - 1);
    }
  }

  // Restricting attention to the interval of a rank changes nothing below it.
  lemma {:induction false} TopNested(lo: int, hi: int, r: int, c: int)
    requires lo <= r <= hi
    requires r <= c <= TopIn(lo, hi, r)
    ensures TopIn(r, TopIn(lo, hi, r), c) == TopIn(lo, hi, c)
    ensures r < c ==> ParentIn(r, TopIn(lo, hi, r), c) == ParentIn(lo, hi, c)
    decreases hi - lo
  {
    if r != lo {
      var m := Mid(lo, hi);
      if m <= r {
        TopNested(m, hi, r, c);
      } else {
        TopNested(lo, m - 1, r, c);
      }
    }
  }

  // The parent found by a rank lists that rank among its children.
  lemma {:induction false} ParentLists(lo: int, hi: int, c: int) returns (i: int)
    requires lo < c <= hi
    ensures TopIn(lo, hi, ParentIn(lo, hi, c)) >= c
    ensures 0 <= i < |Kids(ParentIn(lo, hi, c), TopIn(lo, hi, ParentIn(lo, hi, c)))|
    ensures Kids(ParentIn(lo, hi, c), TopIn(lo, hi, ParentIn(lo, hi, c)))[i].rank == c
    decreases hi - lo
  {
    var m := Mid(lo, hi);
    if m == c {
      i := 0;
    } else if m < c {
      i := ParentLists(m, hi, c);
    } else {
      i := ParentLists(lo, m - 1, c);
      var p := ParentIn(lo, m - 1, c);
      if p == lo {
        assert Kids(lo, hi)[i + 1] == Kids(lo, m - 1)[i];
        i := i + 1;
      }
    }
  }

  // ------------------------------------------------------- the tree of n ranks

  /** The parent and the children computed by different ranks agree: r lists c as a
      child exactly when c computed r as its parent. */
  lemma {:induction false} ParentChildAgree(n: int, r: int, c: int)
    requires 0 <= r < n && 0 < c < n
    ensures Parent(n, c) == r <==> exists i :: IsKid(n, r, i, c)
  {
    if Parent(n, c) == r {
      var i := ParentLists(0, n - 1, c);
      assert IsKid(n, r, i, c);
    }
    forall i | IsKid(n, r, i, c)
      ensures Parent(n, c) == r
    {
      KidFacts(n, r, i);
    }
  }

  /** What a rank knows of its i-th child is what the child knows of itself. */
  lemma {:induction false} KidFacts(n: int, r: int, i: int)
    requires 0 <= r < n
    requires 0 <= i < |Children(n, r)|
    ensures r < Children(n, r)[i].rank <= Top(n, r)
    ensures Parent(n, Children(n, r)[i].rank) == r
    ensures Top(n, Children(n, r)[i].rank) == Children(n, r)[i].rank + Children(n, r)[i].incl - 1
    ensures Top(n, Children(n, r)[i].rank) == Reach(n, r, i)
  {
    var c := Children(n, r)[i].rank;
    KidTop(r, Top(n, r), i);
    KidsTile(r, Top(n, r));
    TopNested(0, n - 1, r, c);
  }

  // Before any child is visited only the rank itself is covered.
  lemma ReachNone(n: int, r: int)
    requires 0 <= r < n
    ensures Reach(n, r, |Children(n, r)|) == r
  {
    KidsTile(r, Top(n, r));
  }

  lemma {:induction false} KidsDistinct(lo: int, hi: int, i: int, j: int)
    requires 0 <= i < j < |Kids(lo, hi)|
    ensures Kids(lo, hi)[i].rank > Kids(lo, hi)[j].rank
    decreases hi - lo
  {
    var m := Mid(lo, hi);
    var rest := Kids(lo, m - 1);
    assert Kids(lo, hi)[j] == rest[j - 1];
    KidTop(lo, m - 1, j - 1);
    if i > 0 {
      assert Kids(lo, hi)[i] == rest[i - 1];
      KidsDistinct(lo, m - 1, i - 1, j - 1);
    }
  }

  // The position of a non-root rank among its parent's children.
  ghost function Index(n: int, c: int): (i: int)
    requires 0 < c < n
    ensures IsKid(n, Parent(n, c), i, c)
  {
    ParentChildAgree(n, Parent(n, c), c);
    var i :| IsKid(n, Parent(n, c), i, c);
    i
  }

  lemma IndexUnique(n: int, r: int, i: int, c: int)
    requires 0 <= r < n
    requires IsKid(n, r, i, c)
    ensures r < c < n && Parent(n, c) == r && Index(n, c) == i
  {
    KidFacts(n, r, i);
    var j := Index(n, c);
    if i < j {
      KidsDistinct(r, Top(n, r), i, j);
    } else if j < i {
      KidsDistinct(r, Top(n, r), j, i);
    }
  }

  /** The subtree of rank r is the interval [r, Top(r)]: a rank other than r is in
      the interval exactly when its parent is. */
  lemma {:induction false} SubtreeIsInterval(n: int, r: int, c: int)
    requires 0 <= r < n && 0 < c < n && r != c
    ensures r <= c <= Top(n, r) <==> r <= Parent(n, c) <= Top(n, r)
  {
    if r <= c <= Top(n, r) {
      TopNested(0, n - 1, r, c);
    } else if r <= Parent(n, c) <= Top(n, r) {
      var p := Parent(n, c);
      KidFacts(n, p, Index(n, c));
      TopNested(0, n - 1, r, p);
    }
  }

  // ------------------------------------------------------------ size and depth

  // The number of ranks in the subtree of r.
  function Size(n: int, r: int): (s: nat)
    requires 0 <= r < n
    ensures s >= 1
  {
    Top(n, r) - r + 1
  }

  // Ranks in the subtrees of the first j of some children.
  function Before(kids: seq<Kid>, j: int): (b: int)
    requires 0 <= j <= |kids|
  {
    if j == 0 then 0 else Before(kids, j - 1) + kids[j - 1].incl
  }

  function InclBefore(n: int, r: int, j: int): (b: int)
    requires 0 <= r < n && 0 <= j <= |Children(n, r)|
  {
    Before(Children(n, r), j)
  }

  lemma {:induction false} BeforeTail(kids: seq<Kid>, j: int)
    requires 0 < j <= |kids|
    ensures Before(kids, j) == kids[0].incl + Before(kids[1..], j - 1)
    decreases j
  {
    if j > 1 {
      BeforeTail(kids, j - 1);
    }
  }

  lemma {:induction false} KidsHalve(lo: int, hi: int, j: int)
    requires 0 <= j < |Kids(lo, hi)|
    ensures Kids(lo, hi)[j].incl == (hi - lo + 1 - Before(Kids(lo, hi), j) + 1) / 2
    ensures Kids(lo, hi)[j].rank == hi + 1 - Before(Kids(lo, hi), j + 1)
    decreases hi - lo
  {
    var m := Mid(lo, hi);
    var kids, rest := Kids(lo, hi), Kids(lo, m - 1);
    assert kids[1..] == rest;
    if j > 0 {
      KidsHalve(lo, m - 1, j - 1);
      BeforeTail(kids, j);
      BeforeTail(kids, j + 1);
    }
  }

  /** Where the tree is cut: the children of a rank are taken from the top, and each gets half
      of the ranks that are left, the rank itself included, rounded up. */
  lemma EachChildTakesHalf(n: int, r: int, j: int)
    requires 0 <= r < n && 0 <= j < |Children(n, r)|
    ensures Children(n, r)[j].incl == (Size(n, r) - InclBefore(n, r, j) + 1) / 2
    ensures Children(n, r)[j].rank == r + Size(n, r) - InclBefore(n, r, j + 1)
  {
    KidsHalve(r, Top(n, r), j);
  }

  lemma {:induction false} KidsBound(lo: int, hi: int, k: nat)
    requires lo <= hi && hi - lo + 1 <= Exp2(k)
    ensures |Kids(lo, hi)| <= k
    decreases k
  {
    if lo < hi {
      KidsBound(lo, Mid(lo, hi) - 1, k - 1);
    }
  }

  lemma {:induction false} DepthInBound(lo: int, hi: int, me: int, k: nat)
    requires lo <= me <= hi && hi - lo + 1 <= Exp2(k)
    ensures DepthIn(lo, hi, me) <= k
    decreases k
  {
    if me != lo {
      if Mid(lo, hi) <= me {
        DepthInBound(Mid(lo, hi), hi, me, k - 1);
      } else {
        DepthInBound(lo, Mid(lo, hi) - 1, me, k - 1);
      }
    }
  }

  lemma {:induction false} DepthInParent(lo: int, hi: int, me: int)
    requires lo < me <= hi
    ensures DepthIn(lo, hi, me) == 1 + DepthIn(lo, hi, ParentIn(lo, hi, me))
    decreases hi - lo
  {
    var m := Mid(lo, hi);
    if m < me {
      DepthInParent(m, hi, me);
    } else if me < m {
      DepthInParent(lo, m - 1, me);
    }
  }

  lemma {:induction false} DepthAgrees(n: int, r: int)
    requires 0 <= r < n
    ensures Depth(n, r) == DepthIn(0, n - 1, r)
    decreases r
  {
    if r > 0 {
      DepthAgrees(n, Parent(n, r));
      DepthInParent(0, n - 1, r);
    }
  }

  /** With k the smallest exponent such that n <= 2^k, no rank has more than k
      children and no rank is more than k hops from rank 0. */
  lemma TreeIsShallow(n: int, r: int, k: nat)
    requires 0 <= r < n <= Exp2(k)
    ensures |Children(n, r)| <= k
    ensures Depth(n, r) <= k
  {
    KidsBound(r, Top(n, r), k);
    DepthInBound(0, n - 1, r, k);
    DepthAgrees(n, r);
  }

  // -------------------------------------------------- cobo_compute_children

  // The loop that sizes the child arrays; the rank count is a C int.
  method MaxChildren(nprocs: int) returns (maxChildren: nat)
    requires nprocs <= 0x4000_0000
    ensures nprocs <= Exp2(maxChildren)
    ensures maxChildren > 0 ==> Exp2(maxChildren - 1) < nprocs
  {
    var n := 1;
    maxChildren := 0;
    while n < nprocs
      invariant n == Exp2(maxChildren)
      invariant maxChildren > 0 ==> Exp2(maxChildren - 1) < nprocs
      invariant n < 0x8000_0000
      decreases nprocs - n
    {
      n := n * 2;
      maxChildren := maxChildren + 1;
    }
  }

  // What the bisection has established for rank me when it stands at [low, high]
  // with the children in done already recorded.
  ghost predicate Bisecting(n: int, me: int, low: int, high: int, parent: int, incl: int, done: seq<Kid>)
  {
    && 0 <= low <= me <= high < n
    && (low < me ==>
          && done == [] && incl == 0 && parent == 0
          && TopIn(low, high, me) == Top(n, me)
          && ParentIn(low, high, me) == Parent(n, me))
    && (low == me ==>
          && parent == (if me == 0 then 0 else Parent(n, me))
          && incl == Top(n, me) - high
          && done + Kids(low, high) == Children(n, me))
  }

  lemma BisectStep(n: int, me: int, low: int, high: int, parent: int, incl: int, done: seq<Kid>,
                   low': int, high': int, parent': int, incl': int, done': seq<Kid>)
    requires low < high
    requires Bisecting(n, me, low, high, parent, incl, done)
    requires var m := Mid(low, high);
      && done' == (if low == me then done + [Kid(m, high - m + 1)] else done)
      && incl' == (if low == me then incl + (high - m + 1) else incl)
      && parent' == (if m == me then low else parent)
      && low' == (if m <= me then m else low)
      && high' == (if m <= me then high else m - 1)
    ensures Bisecting(n, me, low', high', parent', incl', done')
  {
    var m := Mid(low, high);
    if low == me {
      assert done + Kids(low, high) == (done + [Kid(m, high - m + 1)]) + Kids(low, m - 1);
    } else if m == me {
      assert TopIn(low, high, me) == TopIn(m, high, me) == high;
      assert done + Kids(m, high) == Kids(m, high);
    }
  }

  // While the interval can still be split, a child is still to be recorded.
  lemma RoomForKid(n: int, me: int, low: int, high: int, parent: int, incl: int, done: seq<Kid>)
    requires low == me < high
    requires Bisecting(n, me, low, high, parent, incl, done)
    ensures |done| < |Children(n, me)|
  {
  }

  // The child arrays hold these children.
  ghost predicate Recorded(child: array<int>, childIncl: array<int>, done: seq<Kid>)
    reads child, childIncl
  {
    && |done| <= child.Length == childIncl.Length
    && forall i :: 0 <= i < |done| ==> child[i] == done[i].rank && childIncl[i] == done[i].incl
  }

  method RecordKid(child: array<int>, childIncl: array<int>, numChild: nat, kid: Kid, ghost done: seq<Kid>)
    requires child != childIncl && Recorded(child, childIncl, done) && numChild == |done| < child.Length
    modifies child, childIncl
    ensures Recorded(child, childIncl, done + [kid])
  {
    child[numChild] := kid.rank;
    childIncl[numChild] := kid.incl;
  }

  /** Fills in the parent and the children of one rank.  The child arrays have the
      length that the first loop computed, and the bisection never runs past it. */
  method ComputeChildren(me: int, nprocs: int)
    returns (parent: int, numChild: nat, numChildIncl: int, child: array<int>, childIncl: array<int>)
    requires 0 <= me < nprocs <= 0x4000_0000
    ensures fresh(child) && fresh(childIncl) && child != childIncl
    ensures nprocs <= Exp2(child.Length) && (child.Length > 0 ==> Exp2(child.Length - 1) < nprocs)
    ensures parent == if me == 0 then 0 else Parent(nprocs, me)
    ensures numChild == |Children(nprocs, me)| && Recorded(child, childIncl, Children(nprocs, me))
    ensures numChildIncl == Top(nprocs, me) - me
  {
    var maxChildren := MaxChildren(nprocs);
    parent, numChild, numChildIncl := 0, 0, 0;
    child := new int[maxChildren];
    childIncl := new int[maxChildren];
    ghost var done: seq<Kid> := [];
    KidsBound(me, Top(nprocs, me), maxChildren);

    var low, high := 0, nprocs - 1;
    assert [] + Kids(low, high) == Kids(low, high);
    while high - low > 0
      invariant Bisecting(nprocs, me, low, high, parent, numChildIncl, done)
      invariant numChild == |done| && Recorded(child, childIncl, done)
      decreases high - low
    {
      ghost var low0, high0, parent0, incl0, done0 := low, high, parent, numChildIncl, done;
      var mid := (high - low) / 2 + (high - low) % 2 + low;
      if low == me {
        RoomForKid(nprocs, me, low, high, parent, numChildIncl, done);
        RecordKid(child, childIncl, numChild, Kid(mid, high - mid + 1), done);
        numChild := numChild + 1;
        numChildIncl := numChildIncl + (high - mid + 1);
        done := done + [Kid(mid, high - mid + 1)];
      }
      if mid == me {
        parent := low;
      }
      if mid <= me {
        low := mid;
      } else {
        high := mid - 1;
      }
      BisectStep(nprocs, me, low0, high0, parent0, incl0, done0, low, high, parent, numChildIncl, done);
    }
    assert done + Kids(low, high) == done;
  }
}
