/** What a well-formed shared heap determines: the blocks cover the memory, and the whole
    header structure is a function of the live blocks, whatever the history. */
module SheepCanonical {
  import opened SheepLayout

  // -------------------------------------------------------------------- coverage

  /** Every unit below the end lies in exactly one block. */
  lemma {:induction false} Covered(e: Extents, size: nat, u: nat, x: nat) returns (v: nat)
    requires Tiled(e, size) && u in e && u <= x < size
    ensures v in e && v <= x < v + e[v]
    ensures forall w :: w in e && w <= x < w + e[w] ==> w == v
    decreases size - u
  {
    if x < u + e[u] {
      v := u;
    } else {
      assert Closed(e, size, u);
      v := Covered(e, size, u + e[u], x);
    }
  }

  // The blocks met by following NEXT_BLOCK from u.
  ghost function Walk(e: Extents, size: nat, u: nat): seq<nat>
    requires Tiled(e, size) && u in e
    decreases size - u
  {
    assert Closed(e, size, u);
    if u + e[u] == size then [u] else [u] + Walk(e, size, u + e[u])
  }

  ghost function Units(e: Extents, walk: seq<nat>): nat
    requires forall i :: 0 <= i < |walk| ==> walk[i] in e
  {
    if walk == [] then 0 else e[walk[0]] + Units(e, walk[1..])
  }

  /** Following NEXT_BLOCK meets every block from u on, once and in address order, and
      their sizes add up to the rest of the heap. */
  lemma {:induction false} WalkMeetsAll(e: Extents, size: nat, u: nat)
    requires Tiled(e, size) && u in e
    ensures var w := Walk(e, size, u);
      && (forall i :: 0 <= i < |w| ==> w[i] in e && w[i] >= u)
      && (forall i, j :: 0 <= i < j < |w| ==> w[i] < w[j])
      && (forall v :: v in e && v >= u ==> v in w)
      && Units(e, w) == size - u
    decreases size - u
  {
    assert Closed(e, size, u);
    if u + e[u] == size {
      LastBlock(e, size, u);
    } else {
      WalkMeetsAll(e, size, u + e[u]);
      WalkStep(e, size, u);
    }
  }

  lemma LastBlock(e: Extents, size: nat, u: nat)
    requires Tiled(e, size) && u in e && u + e[u] == size
    ensures Units(e, [u]) == e[u] && forall v :: v in e && v >= u ==> v == u
  {
    assert Units(e, [u]) == e[u] + Units(e, []);
    forall v | v in e
      ensures v < size
    {
      assert Closed(e, size, v);
    }
  }

  // What a walk meets, one block earlier.
  lemma WalkStep(e: Extents, size: nat, u: nat)
    requires Tiled(e, size) && u in e && u + e[u] in e && e[u] > 0 && u + e[u] < size
    requires var w := Walk(e, size, u + e[u]);
      && (forall i :: 0 <= i < |w| ==> w[i] in e && w[i] >= u + e[u])
      && (forall i, j :: 0 <= i < j < |w| ==> w[i] < w[j])
      && (forall v :: v in e && v >= u + e[u] ==> v in w)
      && Units(e, w) == size - (u + e[u])
    ensures var w := Walk(e, size, u);
      && (forall i :: 0 <= i < |w| ==> w[i] in e && w[i] >= u)
      && (forall i, j :: 0 <= i < j < |w| ==> w[i] < w[j])
      && (forall v :: v in e && v >= u ==> v in w)
      && Units(e, w) == size - u
  {
    var n, w := u + e[u], Walk(e, size, u + e[u]);
    assert Walk(e, size, u) == [u] + w;
    assert ([u] + w)[1..] == w;
    assert forall v :: v in e && v >= u ==> v == u || v >= n;
  }

  // ------------------------------------------------------------------- canonicity

  ghost predicate Settled(h: Heap, size: nat)
  {
    WellFormed(h, size) && Coalesced(h)
  }

  lemma FreeBlockStart(h1: Heap, h2: Heap, size: nat, u: nat)
    requires Settled(h1, size) && Settled(h2, size) && Live(h1) == Live(h2)
    requires u in Frees(h1)
    ensures u in Frees(h2)
  {
    var p := h1[u].prevBlock;
    assert PrevExact(h1, u) && Alone(h1, p);
    assert Closed(Extent(h1), size, u);
    assert p == 0 || p in Live(h1);
    assert p in h2 && h2[p].units == h1[p].units;
    assert Closed(Extent(h2), size, p);
    assert u in h2;
    assert u in Live(h1) || u in Frees(h2);
  }

  lemma FreeBlockEnd(h1: Heap, h2: Heap, size: nat, u: nat)
    requires Settled(h1, size) && Settled(h2, size) && Live(h1) == Live(h2)
    requires u in Frees(h1) && u in Frees(h2)
    ensures h2[u].units <= h1[u].units
  {
    var n := u + h1[u].units;
    assert Closed(Extent(h1), size, u) && Alone(h1, u);
    assert Closed(Extent(h2), size, u);
    if n < size {
      assert n in Live(h1);
      assert n in Extent(h2) && u in Extent(h2);
    }
  }

  lemma SameBlock(h1: Heap, h2: Heap, size: nat, u: nat)
    requires Settled(h1, size) && Settled(h2, size) && Live(h1) == Live(h2)
    requires u in h1
    ensures u in h2 && h2[u].units == h1[u].units && h2[u].free == h1[u].free
  {
    if h1[u].free {
      FreeBlockStart(h1, h2, size, u);
      FreeBlockEnd(h1, h2, size, u);
      FreeBlockEnd(h2, h1, size, u);
    } else if u != 0 {
      assert u in Live(h1);
    }
  }

  lemma SameBlocks(h1: Heap, h2: Heap, size: nat)
    requires Settled(h1, size) && Settled(h2, size) && Live(h1) == Live(h2)
    ensures h1.Keys == h2.Keys && Extent(h1) == Extent(h2) && Frees(h1) == Frees(h2)
  {
    forall u | u in h1
      ensures u in h2 && h2[u].units == h1[u].units && h2[u].free == h1[u].free
    {
      SameBlock(h1, h2, size, u);
    }
    forall u | u in h2
      ensures u in h1
    {
      SameBlock(h2, h1, size, u);
    }
  }

  /** The live blocks determine every header of the heap: two settled heaps of one size
      with the same allocations are identical, whatever was allocated and freed before. */
  lemma SameLiveSameHeap(h1: Heap, h2: Heap, size: nat)
    requires Settled(h1, size) && Settled(h2, size) && Live(h1) == Live(h2)
    ensures h1 == h2
  {
    SameBlocks(h1, h2, size);
    forall u | u in h1
      ensures h1[u] == h2[u]
    {
      assert h1[u].units == Extent(h1)[u] == Extent(h2)[u] == h2[u].units;
      assert h1[u].free == (u in Frees(h1)) == (u in Frees(h2)) == h2[u].free;
      SameLinks(h1, h2, size, u);
    }
  }

  lemma SameLinks(h1: Heap, h2: Heap, size: nat, u: nat)
    requires WellFormed(h1, size) && WellFormed(h2, size) && u in h1 && u in h2
    requires Extent(h1) == Extent(h2) && Frees(h1) == Frees(h2) && h1[u].free == h2[u].free
    ensures h1[u].prevBlock == h2[u].prevBlock
    ensures h1[u].nextFree == h2[u].nextFree && h1[u].prevFree == h2[u].prevFree
  {
    assert Linked(h1, u) && Linked(h2, u) && PrevExact(h1, u) && PrevExact(h2, u);
    SamePrevBlock(Extent(h1), size, u, h1[u].prevBlock, h2[u].prevBlock);
  }

  lemma SamePrevBlock(e: Extents, size: nat, u: nat, p: nat, q: nat)
    requires Tiled(e, size) && PrevBlockIs(e, u, p) && PrevBlockIs(e, u, q)
    ensures p == q
  {
  }

  // ------------------------------------------------------------------ empty heap

  ghost function Initial(size: nat): Heap
    requires size >= HEAD_UNITS
  {
    map[0 := Header(0, HEAD_UNITS, 0, HEAD_UNITS, false),
        HEAD_UNITS := Header(0, 0, 0, size - HEAD_UNITS, true)]
  }

  lemma InitialSettled(size: nat)
    requires size >= HEAD_UNITS + MIN_UNITS
    ensures Settled(Initial(size), size) && Live(Initial(size)) == map[]
  {
    var h := Initial(size);
    var e := Extent(h);
    assert Frees(h) == {HEAD_UNITS};
    forall u | u in e
      ensures Closed(e, size, u)
    {
      assert u == 0 || u == HEAD_UNITS;
    }
    forall u | u in h
      ensures PrevExact(h, u) && Linked(h, u) && Alone(h, u)
    {
      assert u == 0 || u == HEAD_UNITS;
    }
  }

  /** Once every block has been freed, in whatever order, the heap is again the single
      free block it started as. */
  lemma AllFreedIsInitial(h: Heap, size: nat)
    requires Settled(h, size) && size >= HEAD_UNITS + MIN_UNITS && Live(h) == map[]
    ensures h == Initial(size)
  {
    InitialSettled(size);
    SameLiveSameHeap(h, Initial(size), size);
  }

  /** Live allocations do not overlap, and each stays inside the heap, after the head. */
  lemma LiveBlocksDisjoint(h: Heap, size: nat, u: nat, v: nat)
    requires WellFormed(h, size) && u in Live(h) && v in Live(h) && u != v
    ensures u + Live(h)[u] <= v || v + Live(h)[v] <= u
    ensures HEAD_UNITS <= u && u + Live(h)[u] <= size && Live(h)[u] >= MIN_UNITS
  {
    assert u in Extent(h) && v in Extent(h) && 0 in Extent(h);
    assert Closed(Extent(h), size, u);
  }
}
