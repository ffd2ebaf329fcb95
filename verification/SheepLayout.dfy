/** The block structure of the shared heap ("sheep"): headers by address, in units of
    eight bytes.  Everything here is about the headers as values; Sheep.dfy holds the
    memory and the operations that rewrite it in place. */
module SheepLayout {

  // One block header.  Links are addresses in units; 0 is both the head block and null.
  datatype Header = Header(prevBlock: nat, nextFree: nat, prevFree: nat, units: nat, free: bool)

  const MIN_UNITS := 3      // the smallest block: a 16-byte header and eight bytes
  const HEAD_UNITS := 4     // sizeof(heap_header_t) / 8

  type Heap = map<nat, Header>
  type Extents = map<nat, nat>

  // -------------------------------------------------------------------- tiling

  // A block is large enough and is followed by another block or by the end of the heap.
  ghost predicate Closed(e: Extents, size: nat, u: nat)
    requires u in e
  {
    e[u] >= MIN_UNITS && (u + e[u] == size || (u + e[u] < size && u + e[u] in e))
  }

  ghost predicate Disjoint(e: Extents)
  {
    forall u, v :: u in e && v in e && u < v ==> u + e[u] <= v
  }

  // The blocks tile [0, size) exactly, starting with the head block.
  ghost predicate Tiled(e: Extents, size: nat)
  {
    && 0 in e && e[0] == HEAD_UNITS
    && (forall u {:trigger Closed(e, size, u)} :: u in e ==> Closed(e, size, u))
    && Disjoint(e)
  }

  // p is the block that ends where u starts; the head has null there.
  ghost predicate PrevBlockIs(e: Extents, u: nat, p: nat)
  {
    if u == 0 then p == 0 else p in e && p < u && p + e[p] == u
  }

  ghost function SplitExtents(e: Extents, cur: nat, a: nat): Extents
    requires cur in e && a < e[cur]
  {
    e[cur := a][cur + a := e[cur] - a]
  }

  lemma SplitTiled(e: Extents, size: nat, cur: nat, a: nat)
    requires Tiled(e, size) && cur in e && cur != 0 && a >= MIN_UNITS && a + MIN_UNITS <= e[cur]
    ensures Tiled(SplitExtents(e, cur, a), size)
    ensures cur + a !in e
  {
    var e' := SplitExtents(e, cur, a);
    assert cur + a !in e;
    SplitDisjoint(e, cur, a);
    forall u | u in e'
      ensures Closed(e', size, u)
    {
      assert u in e ==> Closed(e, size, u);
      assert Closed(e, size, cur);
    }
  }

  lemma SplitDisjoint(e: Extents, cur: nat, a: nat)
    requires Disjoint(e) && cur in e && a < e[cur]
    ensures Disjoint(SplitExtents(e, cur, a))
  {
  }

  lemma SplitPrev(e: Extents, size: nat, cur: nat, a: nat, u: nat, p: nat)
    requires Tiled(e, size) && cur in e && cur != 0 && 0 < a < e[cur]
    requires u in e && PrevBlockIs(e, u, p)
    ensures PrevBlockIs(SplitExtents(e, cur, a), u, if u == cur + e[cur] then cur + a else p)
    ensures PrevBlockIs(SplitExtents(e, cur, a), cur + a, cur)
  {
  }

  ghost function MergeExtents(e: Extents, a: nat, b: nat): Extents
    requires a in e && b in e
  {
    e[a := e[a] + e[b]] - {b}
  }

  lemma MergeTiled(e: Extents, size: nat, a: nat)
    requires Tiled(e, size) && a in e && a != 0 && a + e[a] in e
    ensures Tiled(MergeExtents(e, a, a + e[a]), size)
  {
    var b := a + e[a];
    var e' := MergeExtents(e, a, b);
    assert e[a] > 0 && e[b] > 0 by { assert Closed(e, size, a) && Closed(e, size, b); }
    MergeDisjoint(e, a);
    forall u | u in e'
      ensures Closed(e', size, u)
    {
      assert Closed(e, size, u) && Closed(e, size, a) && Closed(e, size, b);
      MergeClosed(e, size, a, u);
    }
  }

  lemma MergeClosed(e: Extents, size: nat, a: nat, u: nat)
    requires Disjoint(e) && a in e && a + e[a] in e && u in e && u != a + e[a]
    requires Closed(e, size, a) && Closed(e, size, a + e[a]) && Closed(e, size, u)
    ensures Closed(MergeExtents(e, a, a + e[a]), size, u)
  {
  }

  lemma MergeDisjoint(e: Extents, a: nat)
    requires Disjoint(e) && a in e && a + e[a] in e && e[a] > 0 && e[a + e[a]] > 0
    ensures Disjoint(MergeExtents(e, a, a + e[a]))
  {
  }

  lemma MergePrev(e: Extents, size: nat, a: nat, u: nat, p: nat)
    requires Tiled(e, size) && a in e && a != 0 && a + e[a] in e
    requires u in e && u != a + e[a] && PrevBlockIs(e, u, p)
    ensures var b := a + e[a]; PrevBlockIs(MergeExtents(e, a, b), u, if u == b + e[b] then a else p)
  {
    assert Closed(e, size, a);
  }

  // ----------------------------------------------------------- address-ordered list

  // n is the first element above u, or null if there is none.
  ghost predicate NextIs(f: set<nat>, u: nat, n: nat)
  {
    && (n == 0 || (n in f && u < n))
    && (forall v :: v in f && u < v ==> n != 0 && n <= v)
  }

  // p is the last element below u, or null if there is none.
  ghost predicate PrevIs(f: set<nat>, u: nat, p: nat)
  {
    && (p == 0 || (p in f && p < u))
    && (forall v :: v in f && v < u ==> p != 0 && v <= p)
  }

  lemma NextRemoved(f: set<nat>, x: nat, p: nat, n: nat, u: nat, m: nat)
    requires 0 !in f && x in f && PrevIs(f, x, p) && NextIs(f, x, n)
    requires (u in f || u == 0) && u != x && NextIs(f, u, m)
    ensures NextIs(f - {x}, u, if u == p then n else m)
  {
  }

  lemma PrevRemoved(f: set<nat>, x: nat, p: nat, n: nat, u: nat, m: nat)
    requires 0 !in f && x in f && PrevIs(f, x, p) && NextIs(f, x, n)
    requires u in f && u != x && PrevIs(f, u, m)
    ensures PrevIs(f - {x}, u, if u == n then p else m)
  {
  }

  lemma NextAdded(f: set<nat>, x: nat, p: nat, n: nat, u: nat, m: nat)
    requires 0 !in f && x !in f && x != 0 && PrevIs(f, x, p) && NextIs(f, x, n)
    requires (u in f || u == 0) && NextIs(f, u, m)
    ensures NextIs(f + {x}, u, if u == p then x else m)
  {
  }

  lemma PrevAdded(f: set<nat>, x: nat, p: nat, n: nat, u: nat, m: nat)
    requires 0 !in f && x !in f && x != 0 && PrevIs(f, x, p) && NextIs(f, x, n)
    requires u in f && PrevIs(f, u, m)
    ensures PrevIs(f + {x}, u, if u == n then x else m)
  {
  }

  // ---------------------------------------------------------------- whole headers

  ghost function Extent(h: Heap): Extents
  {
    map u | u in h :: h[u].units
  }

  ghost function Frees(h: Heap): set<nat>
  {
    set u | u in h && h[u].free
  }

  ghost predicate PrevExact(h: Heap, u: nat)
    requires u in h
  {
    PrevBlockIs(Extent(h), u, h[u].prevBlock)
  }

  // The free-list links of one header: its exact neighbours in address order.
  ghost predicate Linked(h: Heap, u: nat)
    requires u in h
  {
    && (if h[u].free || u == 0 then NextIs(Frees(h), u, h[u].nextFree) else h[u].nextFree == 0)
    && (if h[u].free then PrevIs(Frees(h), u, h[u].prevFree) else h[u].prevFree == 0)
  }

  ghost predicate AllPrevExact(h: Heap)
  {
    forall u {:trigger PrevExact(h, u)} :: u in h ==> PrevExact(h, u)
  }

  ghost predicate AllLinked(h: Heap)
  {
    forall u {:trigger Linked(h, u)} :: u in h ==> Linked(h, u)
  }

  /** What validate_sheep checks, except that neighbours may still both be free. */
  ghost predicate WellFormed(h: Heap, size: nat)
  {
    Tiled(Extent(h), size) && !h[0].free && AllPrevExact(h) && AllLinked(h)
  }

  // A free block is not followed by another free block.
  ghost predicate Alone(h: Heap, u: nat)
    requires u in h
  {
    h[u].free ==> u + h[u].units !in Frees(h)
  }

  ghost predicate Coalesced(h: Heap)
  {
    forall u {:trigger Alone(h, u)} :: u in h ==> Alone(h, u)
  }

  // The allocated blocks other than the head, by address, with their sizes.
  ghost function Live(h: Heap): map<nat, nat>
  {
    map u | u in h && !h[u].free && u != 0 :: h[u].units
  }

  // ------------------------------------------------ taking a block off the free list

  // New values for the forward link of pf (or of the head) and the backward link of nf.
  ghost function Relinked(h: Heap, pf: nat, nf: nat, n: nat, p: nat): Heap
    requires pf in h && nf in h
  {
    var h' := h[pf := h[pf].(nextFree := n)];
    if nf != 0 then h'[nf := h'[nf].(prevFree := p)] else h'
  }

  ghost function UnlinkedHeader(h: Heap, cur: nat, u: nat): Header
    requires cur in h && u in h
  {
    var pf, nf := h[cur].prevFree, h[cur].nextFree;
    if u == cur then h[u].(free := false, nextFree := 0, prevFree := 0)
    else if u == pf then h[u].(nextFree := nf)
    else if nf != 0 && u == nf then h[u].(prevFree := pf)
    else h[u]
  }

  ghost function Unlinked(h: Heap, cur: nat): Heap
    requires cur in h
  {
    map u | u in h :: UnlinkedHeader(h, cur, u)
  }

  // The order in which malloc_sheep writes the links.
  lemma UnlinkedInSteps(h: Heap, cur: nat)
    requires cur in h && h[cur].prevFree in h && h[cur].nextFree in h
    requires h[cur].prevFree != cur && h[cur].nextFree != cur
    ensures
      var pf, nf := h[cur].prevFree, h[cur].nextFree;
      var h1 := h[cur := h[cur].(free := false)];
      var h2 := Relinked(h1, pf, nf, nf, pf);
      var h3 := h2[cur := h2[cur].(nextFree := 0)];
      pf != nf || nf == 0 ==> h3[cur := h3[cur].(prevFree := 0)] == Unlinked(h, cur)
  {
  }

  lemma UnlinkedLinks(h: Heap, size: nat, cur: nat)
    requires WellFormed(h, size) && cur in Frees(h)
    ensures var h' := Unlinked(h, cur); AllLinked(h') && Frees(h') == Frees(h) - {cur}
  {
    var f := Frees(h);
    var h' := Unlinked(h, cur);
    assert Frees(h') == f - {cur};
    assert Linked(h, cur);
    var pf, nf := h[cur].prevFree, h[cur].nextFree;
    forall u | u in h'
      ensures Linked(h', u)
    {
      assert Linked(h, u);
      if u != cur && (h[u].free || u == 0) {
        NextRemoved(f, cur, pf, nf, u, h[u].nextFree);
        if h[u].free { PrevRemoved(f, cur, pf, nf, u, h[u].prevFree); }
      }
    }
  }

  lemma UnlinkedKeeps(h: Heap, size: nat, cur: nat)
    requires WellFormed(h, size) && cur in Frees(h)
    ensures WellFormed(Unlinked(h, cur), size)
    ensures Live(Unlinked(h, cur)) == Live(h)[cur := h[cur].units]
  {
    UnlinkedLinks(h, size, cur);
    PrevsKept(h, Unlinked(h, cur));
    UnlinkedLive(h, cur);
  }

  lemma UnlinkedLive(h: Heap, cur: nat)
    requires cur in h && cur != 0
    ensures Live(Unlinked(h, cur)) == Live(h)[cur := h[cur].units]
  {
  }

  lemma PrevsKept(h: Heap, h': Heap)
    requires AllPrevExact(h) && h'.Keys == h.Keys
    requires forall u :: u in h ==> h'[u].units == h[u].units && h'[u].prevBlock == h[u].prevBlock
    ensures Extent(h') == Extent(h) && AllPrevExact(h')
  {
    assert Extent(h') == Extent(h);
    forall u | u in h'
      ensures PrevExact(h', u)
    {
      assert PrevExact(h, u);
    }
  }

  lemma UnlinkedCoalesced(h: Heap, cur: nat)
    requires Coalesced(h) && cur in h
    ensures Coalesced(Unlinked(h, cur))
  {
    var h' := Unlinked(h, cur);
    assert Frees(h') <= Frees(h);
    forall u | u in h'
      ensures Alone(h', u)
    {
      assert Alone(h, u);
    }
  }

  // ------------------------------------------------ cutting a free tail off a block

  ghost function SplitHeader(h: Heap, cur: nat, a: nat, pf: nat, nf: nat, u: nat): Header
    requires cur in h && a < h[cur].units && (u in h || u == cur + a)
  {
    if u == cur + a then Header(cur, nf, pf, h[cur].units - a, true)
    else if u == cur then h[u].(units := a)
    else h[u].(prevBlock := if u == cur + h[cur].units then cur + a else h[u].prevBlock,
               nextFree := if u == pf then cur + a else h[u].nextFree,
               prevFree := if nf != 0 && u == nf then cur + a else h[u].prevFree)
  }

  ghost function Split(h: Heap, cur: nat, a: nat, pf: nat, nf: nat): Heap
    requires cur in h && a < h[cur].units
  {
    map u | u in h.Keys + {cur + a} :: SplitHeader(h, cur, a, pf, nf, u)
  }

  // The first half of a split: the new header, the new size, and the next block's link.
  ghost function Cut(h: Heap, cur: nat, a: nat, pf: nat, nf: nat, nb: nat): Heap
    requires cur in h && a < h[cur].units && nb in h
  {
    var h1 := h[cur + a := Header(cur, nf, pf, h[cur].units - a, true)];
    var h2 := h1[cur := h1[cur].(units := a)];
    if nb != 0 then h2[nb := h2[nb].(prevBlock := cur + a)] else h2
  }

  ghost function SplitSteps(h: Heap, cur: nat, a: nat, pf: nat, nf: nat, nb: nat): Heap
    requires cur in h && a < h[cur].units && nb in h && pf in h && nf in h
  {
    Relinked(Cut(h, cur, a, pf, nf, nb), pf, nf, cur + a, cur + a)
  }

  lemma SplitInSteps(h: Heap, cur: nat, a: nat, pf: nat, nf: nat, nb: nat)
    requires cur in h && 0 < a < h[cur].units && cur + a !in h && pf in h && nf in h && nb in h
    requires pf != cur && nf != cur && nb != cur && cur != 0
    requires if cur + h[cur].units in h then nb == cur + h[cur].units else nb == 0
    ensures SplitSteps(h, cur, a, pf, nf, nb) == Split(h, cur, a, pf, nf)
  {
  }

  // What a split starts from: an allocated block and its neighbours in the free list.
  ghost predicate CanSplit(h: Heap, size: nat, cur: nat, a: nat, pf: nat, nf: nat)
  {
    && WellFormed(h, size) && cur in h && cur != 0 && !h[cur].free
    && a >= MIN_UNITS && a + MIN_UNITS <= h[cur].units
    && PrevIs(Frees(h), cur, pf) && NextIs(Frees(h), cur, nf)
  }

  lemma SplitKeeps(h: Heap, size: nat, cur: nat, a: nat, pf: nat, nf: nat)
    requires CanSplit(h, size, cur, a, pf, nf)
    ensures cur + a !in h
    ensures WellFormed(Split(h, cur, a, pf, nf), size)
    ensures Live(Split(h, cur, a, pf, nf)) == Live(h)[cur := a]
  {
    SplitTiled(Extent(h), size, cur, a);
    SplitExtent(h, cur, a, pf, nf);
    SplitPrevs(h, size, cur, a, pf, nf);
    SplitLinks(h, size, cur, a, pf, nf);
    SplitLive(h, cur, a, pf, nf);
  }

  lemma SplitExtent(h: Heap, cur: nat, a: nat, pf: nat, nf: nat)
    requires cur in h && 0 < a < h[cur].units && cur + a !in h
    ensures Extent(Split(h, cur, a, pf, nf)) == SplitExtents(Extent(h), cur, a)
  {
  }

  lemma SplitLive(h: Heap, cur: nat, a: nat, pf: nat, nf: nat)
    requires cur in h && cur != 0 && 0 < a < h[cur].units && cur + a !in h && !h[cur].free
    ensures Live(Split(h, cur, a, pf, nf)) == Live(h)[cur := a]
  {
  }

  lemma SplitPrevs(h: Heap, size: nat, cur: nat, a: nat, pf: nat, nf: nat)
    requires CanSplit(h, size, cur, a, pf, nf) && cur + a !in h
    ensures AllPrevExact(Split(h, cur, a, pf, nf))
  {
    var h' := Split(h, cur, a, pf, nf);
    SplitExtent(h, cur, a, pf, nf);
    assert PrevExact(h, cur);
    SplitPrev(Extent(h), size, cur, a, cur, h[cur].prevBlock);
    forall u | u in h'
      ensures PrevExact(h', u)
    {
      if u in h {
        assert PrevExact(h, u);
        SplitPrev(Extent(h), size, cur, a, u, h[u].prevBlock);
      }
    }
  }

  lemma SplitFrees(h: Heap, size: nat, cur: nat, a: nat, pf: nat, nf: nat)
    requires CanSplit(h, size, cur, a, pf, nf) && cur + a !in h
    ensures Frees(Split(h, cur, a, pf, nf)) == Frees(h) + {cur + a}
    ensures PrevIs(Frees(h), cur + a, pf) && NextIs(Frees(h), cur + a, nf)
  {
    assert Frees(Split(h, cur, a, pf, nf)) == Frees(h) + {cur + a};
    assert forall v :: v in Frees(h) ==> v in Extent(h) && cur in Extent(h);
  }

  lemma SplitLinks(h: Heap, size: nat, cur: nat, a: nat, pf: nat, nf: nat)
    requires CanSplit(h, size, cur, a, pf, nf) && cur + a !in h
    ensures AllLinked(Split(h, cur, a, pf, nf))
  {
    var h' := Split(h, cur, a, pf, nf);
    SplitFrees(h, size, cur, a, pf, nf);
    forall u | u in h'
      ensures Linked(h', u)
    {
      if u in h {
        assert Linked(h, u);
        SplitLinked(h, cur, a, pf, nf, u);
      }
    }
  }

  lemma SplitLinked(h: Heap, cur: nat, a: nat, pf: nat, nf: nat, u: nat)
    requires cur in h && !h[cur].free && 0 < a < h[cur].units && cur + a !in h && cur != 0
    requires 0 !in Frees(h) && Frees(Split(h, cur, a, pf, nf)) == Frees(h) + {cur + a}
    requires PrevIs(Frees(h), cur + a, pf) && NextIs(Frees(h), cur + a, nf)
    requires u in h && Linked(h, u)
    ensures Linked(Split(h, cur, a, pf, nf), u)
  {
    var f, nb := Frees(h), cur + a;
    if h[u].free || u == 0 {
      NextAdded(f, nb, pf, nf, u, h[u].nextFree);
      if h[u].free { PrevAdded(f, nb, pf, nf, u, h[u].prevFree); }
    }
  }

  // A split of a block that had no free neighbour leaves no free neighbours.
  lemma SplitCoalesced(h: Heap, size: nat, cur: nat, a: nat, pf: nat, nf: nat)
    requires CanSplit(h, size, cur, a, pf, nf) && Coalesced(h) && cur + a !in h
    requires cur + h[cur].units !in Frees(h)
    ensures Coalesced(Split(h, cur, a, pf, nf))
  {
    var h' := Split(h, cur, a, pf, nf);
    SplitFrees(h, size, cur, a, pf, nf);
    forall u | u in h'
      ensures Alone(h', u)
    {
      if u in h {
        assert Alone(h, u);
        assert u in Extent(h) && cur in Extent(h);
      }
    }
  }

  // ------------------------------------------- putting a block back on the free list

  ghost function LinkedInHeader(h: Heap, cur: nat, pf: nat, nf: nat, u: nat): Header
    requires u in h
  {
    if u == cur then h[u].(free := true, nextFree := nf, prevFree := pf)
    else h[u].(nextFree := if u == pf then cur else h[u].nextFree,
               prevFree := if nf != 0 && u == nf then cur else h[u].prevFree)
  }

  ghost function LinkedIn(h: Heap, cur: nat, pf: nat, nf: nat): Heap
  {
    map u | u in h :: LinkedInHeader(h, cur, pf, nf, u)
  }

  // The order in which free_sheep writes the links.
  ghost function LinkSteps(h: Heap, cur: nat, pf: nat, nf: nat): Heap
    requires cur in h && pf in h && nf in h
  {
    var h1 := h[cur := h[cur].(free := true)];
    var h2 := Relinked(h1, pf, nf, cur, cur);
    var h3 := h2[cur := h2[cur].(nextFree := nf)];
    h3[cur := h3[cur].(prevFree := pf)]
  }

  lemma LinkedInSteps(h: Heap, cur: nat, pf: nat, nf: nat)
    requires cur in h && pf in h && nf in h && pf != cur && nf != cur
    ensures LinkSteps(h, cur, pf, nf) == LinkedIn(h, cur, pf, nf)
  {
  }

  ghost predicate CanLink(h: Heap, size: nat, cur: nat, pf: nat, nf: nat)
  {
    && WellFormed(h, size) && cur in h && cur != 0 && !h[cur].free
    && PrevIs(Frees(h), cur, pf) && NextIs(Frees(h), cur, nf)
  }

  lemma LinkedInLinks(h: Heap, size: nat, cur: nat, pf: nat, nf: nat)
    requires CanLink(h, size, cur, pf, nf)
    ensures AllLinked(LinkedIn(h, cur, pf, nf))
    ensures Frees(LinkedIn(h, cur, pf, nf)) == Frees(h) + {cur}
  {
    var h' := LinkedIn(h, cur, pf, nf);
    var f := Frees(h);
    assert Frees(h') == f + {cur};
    forall u | u in h'
      ensures Linked(h', u)
    {
      assert Linked(h, u);
      if h[u].free || u == 0 {
        NextAdded(f, cur, pf, nf, u, h[u].nextFree);
        if h[u].free { PrevAdded(f, cur, pf, nf, u, h[u].prevFree); }
      }
    }
  }

  lemma LinkedInLive(h: Heap, cur: nat, pf: nat, nf: nat)
    requires cur in h
    ensures Live(LinkedIn(h, cur, pf, nf)) == Live(h) - {cur}
  {
  }

  lemma LinkedInKeeps(h: Heap, size: nat, cur: nat, pf: nat, nf: nat)
    requires CanLink(h, size, cur, pf, nf)
    ensures WellFormed(LinkedIn(h, cur, pf, nf), size)
    ensures Live(LinkedIn(h, cur, pf, nf)) == Live(h) - {cur}
  {
    LinkedInLinks(h, size, cur, pf, nf);
    PrevsKept(h, LinkedIn(h, cur, pf, nf));
    LinkedInLive(h, cur, pf, nf);
  }

  // Two free neighbours, if any, include cur.
  ghost predicate CoalescedExcept(h: Heap, cur: nat)
  {
    forall u {:trigger Alone(h, u)} :: u in h && u != cur && u + h[u].units != cur ==> Alone(h, u)
  }

  lemma LinkedInCoalesced(h: Heap, size: nat, cur: nat, pf: nat, nf: nat)
    requires CanLink(h, size, cur, pf, nf) && Coalesced(h)
    ensures CoalescedExcept(LinkedIn(h, cur, pf, nf), cur)
  {
    var h' := LinkedIn(h, cur, pf, nf);
    assert Frees(h') == Frees(h) + {cur};
    forall u | u in h' && u != cur && u + h'[u].units != cur
      ensures Alone(h', u)
    {
      assert Alone(h, u);
    }
  }

  // ------------------------------------------------------ joining two free neighbours

  ghost function MergedHeader(h: Heap, a: nat, b: nat, u: nat): Header
    requires a in h && b in h && u in h
  {
    if u == a then h[u].(units := h[a].units + h[b].units, nextFree := h[b].nextFree)
    else h[u].(prevBlock := if u == b + h[b].units then a else h[u].prevBlock,
               prevFree := if h[b].nextFree != 0 && u == h[b].nextFree then a else h[u].prevFree)
  }

  ghost function Merged(h: Heap, a: nat, b: nat): Heap
    requires a in h && b in h
  {
    map u | u in h && u != b :: MergedHeader(h, a, b, u)
  }

  // The order in which merge_free_blocks writes, given the block after b or null.
  ghost function MergeSteps(h: Heap, a: nat, b: nat, nb: nat): Heap
    requires a in h && b in h && h[b].nextFree in h && nb in h
  {
    var nf := h[b].nextFree;
    var h1 := h[a := h[a].(nextFree := nf)];
    var h2 := if nb != 0 then h1[nb := h1[nb].(prevBlock := a)] else h1;
    var h3 := if nf != 0 then h2[nf := h2[nf].(prevFree := a)] else h2;
    h3[a := h3[a].(units := h[a].units + h[b].units)]
  }

  lemma MergedInSteps(h: Heap, a: nat, b: nat, nb: nat)
    requires a in h && b in h && h[b].nextFree in h && nb in h && a != b && a != 0 && b != 0
    requires nb != a && nb != b && h[b].nextFree != a && h[b].nextFree != b
    requires if b + h[b].units in h then nb == b + h[b].units else nb == 0
    ensures MergeSteps(h, a, b, nb) - {b} == Merged(h, a, b)
  {
  }

  ghost predicate CanMerge(h: Heap, size: nat, a: nat, b: nat)
  {
    WellFormed(h, size) && a in Frees(h) && b in Frees(h) && b == a + h[a].units
  }

  lemma MergedExtent(h: Heap, a: nat, b: nat)
    requires a in h && b in h && a != b
    ensures Extent(Merged(h, a, b)) == MergeExtents(Extent(h), a, b)
  {
  }

  lemma MergedPrevs(h: Heap, size: nat, a: nat, b: nat)
    requires CanMerge(h, size, a, b) && a != b
    ensures AllPrevExact(Merged(h, a, b))
  {
    var h' := Merged(h, a, b);
    MergedExtent(h, a, b);
    forall u | u in h'
      ensures PrevExact(h', u)
    {
      assert PrevExact(h, u);
      MergePrev(Extent(h), size, a, u, h[u].prevBlock);
    }
  }

  lemma MergedLinks(h: Heap, size: nat, a: nat, b: nat)
    requires CanMerge(h, size, a, b) && a < b
    ensures AllLinked(Merged(h, a, b)) && Frees(Merged(h, a, b)) == Frees(h) - {b}
  {
    var h' := Merged(h, a, b);
    var f := Frees(h);
    assert Frees(h') == f - {b};
    assert Linked(h, b);
    assert PrevIs(f, b, a) by {
      assert forall v :: v in f ==> v in Extent(h) && a in Extent(h);
    }
    forall u | u in h'
      ensures Linked(h', u)
    {
      assert Linked(h, u);
      if h[u].free || u == 0 {
        NextRemoved(f, b, a, h[b].nextFree, u, h[u].nextFree);
        if h[u].free { PrevRemoved(f, b, a, h[b].nextFree, u, h[u].prevFree); }
      }
    }
  }

  lemma MergedLive(h: Heap, a: nat, b: nat)
    requires a in Frees(h) && b in Frees(h)
    ensures Live(Merged(h, a, b)) == Live(h)
  {
  }

  lemma MergedKeeps(h: Heap, size: nat, a: nat, b: nat)
    requires CanMerge(h, size, a, b)
    ensures WellFormed(Merged(h, a, b), size) && Live(Merged(h, a, b)) == Live(h) && a < b
  {
    assert Closed(Extent(h), size, a);
    MergeTiled(Extent(h), size, a);
    MergedExtent(h, a, b);
    MergedPrevs(h, size, a, b);
    MergedLinks(h, size, a, b);
    MergedLive(h, a, b);
  }

  lemma MergedCoalesced(h: Heap, size: nat, a: nat, b: nat, cur: nat)
    requires CanMerge(h, size, a, b) && a < b && CoalescedExcept(h, cur) && (cur == a || cur == b)
    ensures CoalescedExcept(Merged(h, a, b), a)
  {
    var h' := Merged(h, a, b);
    assert Frees(h') == Frees(h) - {b};
    forall u | u in h' && u != a && u + h'[u].units != a
      ensures Alone(h', u)
    {
      assert u in Extent(h) && a in Extent(h);
      assert Alone(h, u);
    }
  }
}
