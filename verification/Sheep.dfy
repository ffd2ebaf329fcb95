/** The shared heap allocator: headers packed into 32-bit words of one shared region and
    rewritten in place.  Addresses are offsets from the region's base in units of eight
    bytes, so a header at unit u occupies words 2u .. 2u+3. */
module Sheep {
  import opened Bytes
  import opened SheepLayout
  import opened SheepCanonical

  newtype Word = x: int | 0 <= x < 0x1_0000_0000

  // ------------------------------------------------------------- sizes and pointers

  // The 32-bit arithmetic of malloc_sheep: request plus header, rounded up to eight.
  function AllocSize(request: nat): (r: nat)
    ensures r % 8 == 0 && r < TWO_32
  {
    var s := (request + 16) % TWO_32;
    if s % 8 != 0 then ((s / 8 + 1) * 8) % TWO_32 else s
  }

  /** A block has room for the request exactly when the 32-bit size does not wrap. */
  lemma AllocSizeFits(request: nat)
    ensures request + 16 <= AllocSize(request) <==> request <= TWO_32 - 24
    ensures request <= TWO_32 - 24 ==> AllocSize(request) < request + 24
  {
  }

  // The requests for which the 32-bit size wraps to less than the smallest block.
  lemma TooSmall(request: nat)
    ensures AllocSize(request) < 8 * MIN_UNITS <==> request % TWO_32 == 0 || request % TWO_32 > TWO_32 - 24
  {
    var q := request % TWO_32;
    assert (request + 16) % TWO_32 == if q + 16 < TWO_32 then q + 16 else q + 16 - TWO_32;
  }

  // A size that has wrapped is short of the request.
  lemma WrappedIsShort(request: nat)
    requires request > TWO_32 - 24 && AllocSize(request) >= 8 * MIN_UNITS
    ensures AllocSize(request) < request
  {
    TooSmall(request);
  }

  // ptr_sheep and sheep_ptr for a region mapped at base; null is 0.
  function PtrSheep(base: nat, v: nat): nat
    requires v == 0 || base <= v
  {
    if v == 0 then 0 else ((v - base) / 8) % TWO_32
  }

  function SheepPtr(base: nat, val: nat): nat
  {
    if val == 0 then 0 else 8 * val + base
  }

  const MAX_UNITS := 0x40_0000   // 2^25 bytes

  /** A pointer stored by a process that maps the region at base1 and loaded by one that
      maps it at base2 names the same unit; null stays null, and so does nothing else
      except the base itself. */
  lemma SheepPtrRoundTrip(base1: nat, base2: nat, p: nat)
    requires 0 < p < MAX_UNITS
    ensures PtrSheep(base1, base1 + 8 * p) == p && SheepPtr(base2, p) == base2 + 8 * p
    ensures SheepPtr(base2, PtrSheep(base1, base1 + 8 * p)) == base2 + 8 * p
    ensures SheepPtr(base2, PtrSheep(base1, 0)) == 0
    ensures SheepPtr(base2, PtrSheep(base1, base1)) == 0
  {
    assert (base1 + 8 * p - base1) / 8 == p;
  }

  // ------------------------------------------------------------------------ memory

  ghost predicate ShowsAt(m: seq<Word>, u: nat, x: Header)
  {
    && 2 * u + 3 < |m|
    && m[2 * u] as nat == x.prevBlock
    && m[2 * u + 1] as nat == x.nextFree
    && m[2 * u + 2] as nat == x.prevFree
    && m[2 * u + 3] as nat == 2 * x.units + (if x.free then 0 else 1)
  }

  // Headers do not overlap.
  ghost predicate Spaced(keys: set<nat>)
  {
    forall u, v :: u in keys && v in keys && u < v ==> u + 2 <= v
  }

  ghost predicate Shown(m: seq<Word>, h: Heap)
  {
    Spaced(h.Keys) && forall u {:trigger ShowsAt(m, u, h[u])} :: u in h ==> ShowsAt(m, u, h[u])
  }

  // Word k is not part of any header.
  ghost predicate Quiet(keys: set<nat>, k: nat)
  {
    forall u :: u in keys ==> k < 2 * u || 2 * u + 4 <= k
  }

  // Only header words differ.
  ghost predicate Framed(m0: seq<Word>, m1: seq<Word>, keys: set<nat>)
  {
    |m1| == |m0| && forall k: nat :: k < |m0| && Quiet(keys, k) ==> m1[k] == m0[k]
  }

  predicate GoodSize(bytes: nat)
  {
    bytes >= 4096 && bytes % 4096 == 0 && bytes < 0x200_0000
  }

  lemma RegionSize(bytes: nat)
    requires GoodSize(bytes)
    ensures bytes == 8 * (bytes / 8) && bytes / 4 == 2 * (bytes / 8) && 512 <= bytes / 8 < MAX_UNITS
  {
    var pages := bytes / 4096;
    assert bytes == 4096 * pages;
    assert bytes / 8 == 512 * pages && bytes / 4 == 1024 * pages;
  }

  // A region that some process has initialised and the processes sharing it have used.
  ghost predicate InUse(m: seq<Word>, h: Heap, size: nat)
  {
    && Shown(m, h) && Settled(h, size) && |m| == 2 * size && size >= HEAD_UNITS
    && m[4] as nat == 8 * size && m[5] == 0 && m[6] == 1 && m[7] == 0
  }

  // Setting heap_size and initialized leaves the first two headers as they are.
  lemma MarkedInUse(m: seq<Word>, m': seq<Word>, size: nat)
    requires size >= 512 && |m| == |m'| == 2 * size && Shown(m, Initial(size))
    requires m[4] as nat == 8 * size && m[5] == 0 && m'[6] == 1 && m'[7] == 0
    requires forall k :: 0 <= k < |m| && k != 6 && k != 7 ==> m'[k] == m[k]
    ensures InUse(m', Initial(size), size)
  {
    var h := Initial(size);
    InitialSettled(size);
    forall u | u in h
      ensures ShowsAt(m', u, h[u])
    {
      assert u == 0 || u == HEAD_UNITS;
      assert ShowsAt(m, u, h[u]);
    }
  }

  // Rewriting one word of one header.
  lemma ShownUpdate(m: seq<Word>, h: Heap, u: nat, i: nat, w: Word, x: Header)
    requires Shown(m, h) && u in h && i < 4 && 2 * u + 3 < |m|
    requires ShowsAt(m[2 * u + i := w], u, x)
    ensures Shown(m[2 * u + i := w], h[u := x])
    ensures h[u := x].Keys == h.Keys
    ensures Framed(m, m[2 * u + i := w], h.Keys)
  {
    var m', h' := m[2 * u + i := w], h[u := x];
    assert h'.Keys == h.Keys;
    forall v | v in h'
      ensures ShowsAt(m', v, h'[v])
    {
      assert ShowsAt(m, v, h[v]);
    }
  }

  class Region {
    const mem: array<Word>
    const size: nat            // in units
    var firstFit: bool
    ghost var heap: Heap       // the headers the memory shows

    ghost predicate Shows()
      reads this, mem
    {
      Shown(mem[..], heap)
    }

    function PrevBlock(u: nat): (r: nat)
      requires Shows() && u in heap
      reads this, mem
      ensures r == heap[u].prevBlock
    {
      assert ShowsAt(mem[..], u, heap[u]);
      mem[2 * u] as nat
    }

    function NextFree(u: nat): (r: nat)
      requires Shows() && u in heap
      reads this, mem
      ensures r == heap[u].nextFree
    {
      assert ShowsAt(mem[..], u, heap[u]);
      mem[2 * u + 1] as nat
    }

    function PrevFree(u: nat): (r: nat)
      requires Shows() && u in heap
      reads this, mem
      ensures r == heap[u].prevFree
    {
      assert ShowsAt(mem[..], u, heap[u]);
      mem[2 * u + 2] as nat
    }

    function Size(u: nat): (r: nat)
      requires Shows() && u in heap
      reads this, mem
      ensures r == heap[u].units
    {
      assert ShowsAt(mem[..], u, heap[u]);
      mem[2 * u + 3] as nat / 2
    }

    predicate IsAlloc(u: nat)
      requires Shows() && u in heap
      reads this, mem
      ensures IsAlloc(u) <==> !heap[u].free
    {
      assert ShowsAt(mem[..], u, heap[u]);
      mem[2 * u + 3] % 2 == 1
    }

    // NEXT_BLOCK: the block after u, or null at the end of the region.
    function NextBlock(u: nat): (r: nat)
      requires Shows() && u in heap
      reads this, mem
      ensures r == if u + heap[u].units >= size then 0 else u + heap[u].units
    {
      if u + Size(u) >= size then 0 else u + Size(u)
    }

    method SetPrevBlock(u: nat, v: nat)
      requires Shows() && u in heap && v < TWO_32
      modifies mem, this`heap
      ensures Shows() && heap == old(heap)[u := old(heap)[u].(prevBlock := v)]
      ensures heap.Keys == old(heap).Keys && Framed(old(mem[..]), mem[..], heap.Keys)
    {
      assert ShowsAt(mem[..], u, heap[u]);
      ghost var m0, x := mem[..], heap[u].(prevBlock := v);
      mem[2 * u] := v as Word;
      assert mem[..] == m0[2 * u + 0 := v as Word];
      ShownUpdate(m0, heap, u, 0, v as Word, x);
      heap := heap[u := x];
    }

    method SetNextFree(u: nat, v: nat)
      requires Shows() && u in heap && v < TWO_32
      modifies mem, this`heap
      ensures Shows() && heap == old(heap)[u := old(heap)[u].(nextFree := v)]
      ensures heap.Keys == old(heap).Keys && Framed(old(mem[..]), mem[..], heap.Keys)
    {
      assert ShowsAt(mem[..], u, heap[u]);
      ghost var m0, x := mem[..], heap[u].(nextFree := v);
      mem[2 * u + 1] := v as Word;
      assert mem[..] == m0[2 * u + 1 := v as Word];
      ShownUpdate(m0, heap, u, 1, v as Word, x);
      heap := heap[u := x];
    }

    method SetPrevFree(u: nat, v: nat)
      requires Shows() && u in heap && v < TWO_32
      modifies mem, this`heap
      ensures Shows() && heap == old(heap)[u := old(heap)[u].(prevFree := v)]
      ensures heap.Keys == old(heap).Keys && Framed(old(mem[..]), mem[..], heap.Keys)
    {
      assert ShowsAt(mem[..], u, heap[u]);
      ghost var m0, x := mem[..], heap[u].(prevFree := v);
      mem[2 * u + 2] := v as Word;
      assert mem[..] == m0[2 * u + 2 := v as Word];
      ShownUpdate(m0, heap, u, 2, v as Word, x);
      heap := heap[u := x];
    }

    // SET_SIZE keeps the low bit and replaces the rest.
    method SetSize(u: nat, units: nat)
      requires Shows() && u in heap && 2 * units + 1 < TWO_32
      modifies mem, this`heap
      ensures Shows() && heap == old(heap)[u := old(heap)[u].(units := units)]
      ensures heap.Keys == old(heap).Keys && Framed(old(mem[..]), mem[..], heap.Keys)
    {
      assert ShowsAt(mem[..], u, heap[u]);
      ghost var m0, x := mem[..], heap[u].(units := units);
      var w := mem[2 * u + 3] % 2 + (2 * units) as Word;
      mem[2 * u + 3] := w;
      assert mem[..] == m0[2 * u + 3 := w];
      ShownUpdate(m0, heap, u, 3, w, x);
      heap := heap[u := x];
    }

    // SET_ALLOC and SET_FREE set and clear the low bit.
    method SetFree(u: nat, free: bool)
      requires Shows() && u in heap
      modifies mem, this`heap
      ensures Shows() && heap == old(heap)[u := old(heap)[u].(free := free)]
      ensures heap.Keys == old(heap).Keys && Framed(old(mem[..]), mem[..], heap.Keys)
    {
      assert ShowsAt(mem[..], u, heap[u]);
      ghost var m0, x := mem[..], heap[u].(free := free);
      var w := mem[2 * u + 3] - mem[2 * u + 3] % 2 + (if free then 0 else 1);
      mem[2 * u + 3] := w;
      assert mem[..] == m0[2 * u + 3 := w];
      ShownUpdate(m0, heap, u, 3, w, x);
      heap := heap[u := x];
    }

    // ---------------------------------------------------------------- invariant

    // Between two header updates the blocks are in order; neighbours may both be free.
    ghost predicate Ordered()
      reads this, mem
    {
      && size < MAX_UNITS && mem.Length == 2 * size
      && Shows() && WellFormed(heap, size)
    }

    /** The headers in memory are settled, and the head block's payload holds heap_size
        and initialized. */
    ghost predicate Valid()
      reads this, mem
    {
      size < MAX_UNITS && mem.Length == 2 * size && InUse(mem[..], heap, size)
    }

    // Every address in the heap fits a 32-bit link.
    lemma Small(u: nat)
      requires size < MAX_UNITS && WellFormed(heap, size) && u in heap
      ensures u + heap[u].units <= size && 3 <= heap[u].units
    {
      assert Closed(Extent(heap), size, u);
    }

    /** init_sheep: the first process to map the region lays out one free block; a later
        one, which finds the region initialised, leaves every word alone.  The headers it
        then finds are passed as a ghost argument. */
    constructor (region: array<Word>, bytes: nat, useFirstFit: bool, ghost found: Heap)
      requires GoodSize(bytes) && region.Length == bytes / 4 && region.Length >= 8
      requires region[6] != 0 || region[7] != 0 ==> InUse(region[..], found, bytes / 8)
      modifies region
      ensures Valid() && mem == region && size == bytes / 8 && firstFit == useFirstFit
      ensures old(region[6] != 0 || region[7] != 0) ==> heap == found && region[..] == old(region[..])
      ensures old(region[6] == 0 && region[7] == 0) ==>
        heap == Initial(size) && Frees(heap) == {4} && heap[4].units == size - 4
    {
      RegionSize(bytes);
      mem, size, firstFit := region, bytes / 8, useFirstFit;
      heap := if region[6] != 0 || region[7] != 0 then found else map[];
      new;
      if mem[6] == 0 && mem[7] == 0 {
        FirstUse(bytes);
      }
    }

    method FirstUse(bytes: nat)
      requires heap == map[] && size >= 512 && size < MAX_UNITS && mem.Length == 2 * size && bytes == 8 * size
      modifies mem, this`heap
      ensures Valid() && heap == Initial(size)
    {
      mem[4], mem[5] := bytes as Word, 0;
      LayOut();
      ghost var m := mem[..];
      mem[6], mem[7] := 1, 0;
      MarkedInUse(m, mem[..], size);
    }

    method LayOut()
      requires heap == map[] && size >= 512 && size < MAX_UNITS && mem.Length == 2 * size
      modifies mem, this`heap
      ensures Shows() && heap == Initial(size) && mem[4] == old(mem[4]) && mem[5] == old(mem[5])
    {
      assert heap.Keys == {};
      MakeHeader(0, false, 0, HEAD_UNITS, 0, HEAD_UNITS);
      MakeHeader(HEAD_UNITS, true, 0, 0, 0, size - HEAD_UNITS);
      assert heap.Keys == {0, 4};
      assert Quiet(heap.Keys, 4) && Quiet(heap.Keys, 5);
    }

    // -------------------------------------------------------------------- malloc

    // Pointing the free-list neighbours at n and p; the head stands in for no neighbour.
    method Relink(pf: nat, nf: nat, n: nat, p: nat)
      requires Shows() && 0 in heap && pf in heap && nf in heap && n < TWO_32 && p < TWO_32
      modifies mem, this`heap
      ensures Shows() && heap == Relinked(old(heap), pf, nf, n, p)
      ensures heap.Keys == old(heap).Keys && Framed(old(mem[..]), mem[..], heap.Keys)
    {
      if pf != 0 {
        SetNextFree(pf, n);
      } else {
        SetNextFree(0, n);
      }
      if nf != 0 {
        SetPrevFree(nf, p);
      }
    }

    // Taking cur off the free list and marking it allocated.
    method Unlink(cur: nat) returns (pf: nat, nf: nat)
      requires Ordered() && cur in Frees(heap)
      modifies mem, this`heap
      ensures Ordered() && heap == Unlinked(old(heap), cur)
      ensures Framed(old(mem[..]), mem[..], heap.Keys)
      ensures pf == old(heap)[cur].prevFree && nf == old(heap)[cur].nextFree
    {
      ghost var h := heap;
      UnlinkedKeeps(h, size, cur);
      assert Linked(h, cur);
      pf, nf := PrevFree(cur), NextFree(cur);
      Small(pf);
      Small(nf);
      SetFree(cur, false);
      Relink(pf, nf, nf, pf);
      SetNextFree(cur, 0);
      SetPrevFree(cur, 0);
      UnlinkedInSteps(h, cur);
    }

    // CLEAR followed by the setters, as for each new block.
    method MakeHeader(u: nat, free: bool, prevBlock: nat, nextFree: nat, prevFree: nat, units: nat)
      requires Shows() && 2 * u + 3 < mem.Length && u !in heap && Spaced(heap.Keys + {u})
      requires prevBlock < TWO_32 && nextFree < TWO_32 && prevFree < TWO_32 && 2 * units + 1 < TWO_32
      modifies mem, this`heap
      ensures Shows() && heap == old(heap)[u := Header(prevBlock, nextFree, prevFree, units, free)]
      ensures heap.Keys == old(heap).Keys + {u} && Framed(old(mem[..]), mem[..], heap.Keys)
    {
      ClearHeader(u);
      SetFree(u, free);
      SetFields(u, prevBlock, nextFree, prevFree, units);
    }

    method SetFields(u: nat, prevBlock: nat, nextFree: nat, prevFree: nat, units: nat)
      requires Shows() && u in heap
      requires prevBlock < TWO_32 && nextFree < TWO_32 && prevFree < TWO_32 && 2 * units + 1 < TWO_32
      modifies mem, this`heap
      ensures Shows() && heap == old(heap)[u := Header(prevBlock, nextFree, prevFree, units, old(heap)[u].free)]
      ensures heap.Keys == old(heap).Keys && Framed(old(mem[..]), mem[..], heap.Keys)
    {
      SetPrevBlock(u, prevBlock);
      SetLinks(u, nextFree, prevFree);
      SetSize(u, units);
    }

    method SetLinks(u: nat, nextFree: nat, prevFree: nat)
      requires Shows() && u in heap && nextFree < TWO_32 && prevFree < TWO_32
      modifies mem, this`heap
      ensures Shows() && heap == old(heap)[u := old(heap)[u].(nextFree := nextFree, prevFree := prevFree)]
      ensures heap.Keys == old(heap).Keys && Framed(old(mem[..]), mem[..], heap.Keys)
    {
      SetNextFree(u, nextFree);
      SetPrevFree(u, prevFree);
    }

    method ClearHeader(u: nat)
      requires Shows() && 2 * u + 3 < mem.Length && u !in heap && Spaced(heap.Keys + {u})
      modifies mem, this`heap
      ensures Shows() && heap == old(heap)[u := Header(0, 0, 0, 0, true)]
      ensures heap.Keys == old(heap).Keys + {u} && Framed(old(mem[..]), mem[..], heap.Keys)
    {
      ghost var h := heap;
      mem[2 * u], mem[2 * u + 1], mem[2 * u + 2], mem[2 * u + 3] := 0, 0, 0, 0;
      heap := heap[u := Header(0, 0, 0, 0, true)];
      assert heap.Keys == h.Keys + {u};
      forall v | v in heap
        ensures ShowsAt(mem[..], v, heap[v])
      {
        if v != u {
          assert ShowsAt(old(mem[..]), v, h[v]);
        }
      }
    }

    // The first half of a split: the new header, the new size, the next block's link.
    method CutBlock(cur: nat, a: nat, pf: nat, nf: nat, nextBlock: nat)
      requires Shows() && cur in heap && nextBlock in heap && 2 * (cur + a) + 3 < mem.Length
      requires cur + a !in heap && Spaced(heap.Keys + {cur + a}) && a < heap[cur].units
      requires cur + heap[cur].units < MAX_UNITS && pf < MAX_UNITS && nf < MAX_UNITS
      modifies mem, this`heap
      ensures Shows() && heap == Cut(old(heap), cur, a, pf, nf, nextBlock)
      ensures heap.Keys == old(heap).Keys + {cur + a} && Framed(old(mem[..]), mem[..], heap.Keys)
    {
      var newUnits := Size(cur) - a;
      MakeHeader(cur + a, true, cur, nf, pf, newUnits);
      SetSize(cur, a);
      if nextBlock != 0 {
        SetPrevBlock(nextBlock, cur + a);
      }
    }

    method CutAndLink(cur: nat, a: nat, pf: nat, nf: nat, nextBlock: nat)
      requires Shows() && cur in heap && nextBlock in heap && 2 * (cur + a) + 3 < mem.Length
      requires cur + a !in heap && Spaced(heap.Keys + {cur + a}) && a < heap[cur].units
      requires cur + heap[cur].units < MAX_UNITS && pf < MAX_UNITS && nf < MAX_UNITS
      requires 0 in heap && pf in heap && nf in heap
      modifies mem, this`heap
      ensures Shows() && heap == SplitSteps(old(heap), cur, a, pf, nf, nextBlock)
      ensures heap.Keys == old(heap).Keys + {cur + a} && Framed(old(mem[..]), mem[..], heap.Keys)
    {
      CutBlock(cur, a, pf, nf, nextBlock);
      Relink(pf, nf, cur + a, cur + a);
    }

    // Cutting cur down to a units; the rest becomes a free block between pf and nf.
    method SplitTail(cur: nat, a: nat, pf: nat, nf: nat)
      requires Ordered() && CanSplit(heap, size, cur, a, pf, nf)
      requires Coalesced(heap) && cur + heap[cur].units !in Frees(heap)
      modifies mem, this`heap
      ensures Ordered() && Coalesced(heap) && Live(heap) == Live(old(heap))[cur := a]
      ensures old(heap).Keys <= heap.Keys && Framed(old(mem[..]), mem[..], heap.Keys)
    {
      var nextBlock := NextBlock(cur);
      SplitRoom(heap, size, cur, a, pf, nf);
      SplitDone(heap, size, cur, a, pf, nf, nextBlock);
      CutAndLink(cur, a, pf, nf, nextBlock);
    }

    /** The search of malloc_sheep along the free list. */
    method FindBlock(a: nat) returns (best: nat)
      requires Ordered()
      ensures best == 0 <==> forall v :: v in Frees(heap) ==> heap[v].units < a
      ensures best != 0 ==> Chosen(heap, a, firstFit, best)
    {
      best := 0;
      var bestDiff: nat := 0xFFFF_FFFF;
      assert Linked(heap, 0);
      var cur := NextFree(0);
      while cur != 0
        invariant cur == 0 || cur in Frees(heap)
        invariant BestBelow(heap, a, cur, best, bestDiff)
        invariant best != 0 ==> bestDiff >= MIN_UNITS && !firstFit
        decreases if cur == 0 then 0 else 1 + size - cur
      {
        Small(cur);
        assert Linked(heap, cur);
        var units := Size(cur);
        if units < a {
          cur := NextFree(cur);
          continue;
        }
        var diff := units - a;
        if diff < bestDiff {
          bestDiff := diff;
          best := cur;
          if diff < MIN_UNITS {
            break;
          }
        }
        if firstFit {
          break;
        }
        cur := NextFree(cur);
      }
    }

    /** malloc_sheep: null exactly when no free block is large enough; otherwise the
        chosen block joins the live ones, cut to the computed size if 24 bytes or more are
        over and whole if not, and no payload word of a block that was live is written. */
    method Malloc(request: nat) returns (p: nat)
      requires Valid() && 0 < request && AllocSize(request) >= 8 * MIN_UNITS
      modifies mem, this`heap
      ensures Valid()
      ensures p == 0 <==> forall v :: v in Frees(old(heap)) ==> old(heap)[v].units < AllocSize(request) / 8
      ensures p == 0 ==> heap == old(heap) && mem[..] == old(mem[..])
      ensures p != 0 ==>
        var a, c := AllocSize(request) / 8, p - 2;
        && c in Frees(old(heap)) && Chosen(old(heap), a, firstFit, c)
        && c in heap && Live(heap) == Live(old(heap))[c := heap[c].units]
        && heap[c].units == (if old(heap)[c].units >= a + 3 then a else old(heap)[c].units)
        && (request <= 8 * (heap[c].units - 2) <==> request <= TWO_32 - 24)
      ensures PayloadsKept(old(heap), old(mem[..]), mem[..])
    {
      AllocSizeFits(request);
      if request > TWO_32 - 24 {
        WrappedIsShort(request);
      }
      var a := AllocSize(request) / 8;
      var cur := FindBlock(a);
      if cur == 0 {
        return 0;
      }
      assert !IsAlloc(cur);
      TakeBlock(cur, a);
      TakenPayloads(old(heap), heap, size, cur, old(mem[..]), mem[..]);
      p := cur + 2;
    }

    // Allocating a units out of the free block cur.
    method TakeBlock(cur: nat, a: nat)
      requires Ordered() && Coalesced(heap) && cur in Frees(heap) && MIN_UNITS <= a <= heap[cur].units
      modifies mem, this`heap
      ensures Ordered() && Coalesced(heap) && Framed(old(mem[..]), mem[..], heap.Keys)
      ensures cur in Live(heap) && Live(heap) == Live(old(heap))[cur := Live(heap)[cur]]
      ensures Live(heap)[cur] == if old(heap)[cur].units >= a + 3 then a else old(heap)[cur].units
    {
      var curUnits := Size(cur);
      var pf, nf := TakeWhole(cur);
      if curUnits - a >= MIN_UNITS {
        SplitTail(cur, a, pf, nf);
      }
      assert cur in Live(heap);
    }

    method TakeWhole(cur: nat) returns (pf: nat, nf: nat)
      requires Ordered() && Coalesced(heap) && cur in Frees(heap)
      modifies mem, this`heap
      ensures Ordered() && Coalesced(heap) && Framed(old(mem[..]), mem[..], heap.Keys)
      ensures cur in heap && !heap[cur].free && heap[cur].units == old(heap)[cur].units
      ensures Live(heap) == Live(old(heap))[cur := heap[cur].units] && cur + heap[cur].units !in Frees(heap)
      ensures PrevIs(Frees(heap), cur, pf) && NextIs(Frees(heap), cur, nf)
    {
      UnlinkedKeeps(heap, size, cur);
      UnlinkedCoalesced(heap, cur);
      UnlinkedNeighbours(heap, size, cur);
      assert Alone(heap, cur);
      pf, nf := Unlink(cur);
    }

    // ---------------------------------------------------------------------- free

    // Walking back over allocated blocks to the free block before cur, or to the head.
    method FindPrevFree(cur: nat) returns (pf: nat)
      requires Ordered() && cur in heap && !heap[cur].free
      ensures PrevIs(Frees(heap), cur, pf)
    {
      pf := cur;
      while pf != 0 && IsAlloc(pf)
        invariant pf in heap && pf <= cur
        invariant forall v :: v in Frees(heap) && v < cur ==> v <= pf
        decreases pf
      {
        assert PrevExact(heap, pf);
        ghost var w := pf;
        pf := PrevBlock(pf);
        assert forall v :: v in Frees(heap) ==> v in Extent(heap) && pf in Extent(heap);
      }
    }

    method LinkBlock(cur: nat, pf: nat, nf: nat)
      requires Shows() && 0 in heap && cur in heap && pf in heap && nf in heap
      requires cur < TWO_32 && pf < TWO_32 && nf < TWO_32
      modifies mem, this`heap
      ensures Shows() && heap == LinkSteps(old(heap), cur, pf, nf)
      ensures heap.Keys == old(heap).Keys && Framed(old(mem[..]), mem[..], heap.Keys)
    {
      SetFree(cur, true);
      Relink(pf, nf, cur, cur);
      SetNextFree(cur, nf);
      SetPrevFree(cur, pf);
    }

    // Marking cur free and inserting it in address order.
    method PutBack(cur: nat)
      requires Ordered() && Coalesced(heap) && cur in Live(heap)
      modifies mem, this`heap
      ensures Ordered() && Live(heap) == Live(old(heap)) - {cur}
      ensures cur in Frees(heap) && CoalescedExcept(heap, cur)
      ensures heap.Keys == old(heap).Keys && Framed(old(mem[..]), mem[..], heap.Keys)
    {
      var pf := FindPrevFree(cur);
      assert Linked(heap, pf);
      var nf := if pf == 0 then NextFree(0) else NextFree(pf);
      Neighbours(heap, size, cur, pf, nf);
      assert (pf < cur || pf == 0) && (nf > cur || nf == 0);
      LinkDone(heap, size, cur, pf, nf);
      LinkBlock(cur, pf, nf);
    }

    method WriteMerge(a: nat, b: nat, nextBlock: nat)
      requires Shows() && a in heap && b in heap && heap[b].nextFree in heap && nextBlock in heap
      requires a < TWO_32 && 2 * (heap[a].units + heap[b].units) + 1 < TWO_32 && heap[b].nextFree < TWO_32
      modifies mem, this`heap
      ensures Shows() && heap == MergeSteps(old(heap), a, b, nextBlock)
      ensures heap.Keys == old(heap).Keys && Framed(old(mem[..]), mem[..], heap.Keys)
    {
      var aUnits, bUnits, nf := Size(a), Size(b), NextFree(b);
      SetNextFree(a, nf);
      if nextBlock != 0 {
        SetPrevBlock(nextBlock, a);
      }
      if nf != 0 {
        SetPrevFree(nf, a);
      }
      SetSize(a, aUnits + bUnits);
    }

    /** merge_free_blocks, for two free neighbours of which one is cur. */
    method MergeFreeBlocks(a: nat, b: nat, ghost cur: nat)
      requires Ordered() && CanMerge(heap, size, a, b)
      requires CoalescedExcept(heap, cur) && (cur == a || cur == b)
      modifies mem, this`heap
      ensures Ordered() && Live(heap) == Live(old(heap))
      ensures a in Frees(heap) && CoalescedExcept(heap, a)
      ensures heap.Keys == old(heap).Keys - {b} && Framed(old(mem[..]), mem[..], old(heap).Keys)
    {
      var nextBlock := NextBlock(b);
      MergeRoom(heap, size, a, b);
      MergeDone(heap, size, a, b, nextBlock, cur);
      WriteMerge(a, b, nextBlock);
      heap := heap - {b};
      forall u | u in heap
        ensures ShowsAt(mem[..], u, heap[u])
      {
      }
    }

    // What joining leaves of a heap, and leaves alone.
    ghost predicate Joined(h: Heap, m: seq<Word>, cur: nat, changed: bool)
      reads this, mem
    {
      && Ordered() && Live(heap) == Live(h)
      && cur in Frees(heap) && CoalescedExcept(heap, cur)
      && heap.Keys <= h.Keys && |m| == mem.Length && Framed(m, mem[..], h.Keys)
      && (changed ==> |heap.Keys| < |h.Keys|)
      && (!changed ==> heap == h)
    }

    method JoinBefore(cur0: nat) returns (cur: nat, changed: bool)
      requires Ordered() && cur0 in Frees(heap) && CoalescedExcept(heap, cur0)
      modifies mem, this`heap
      ensures Joined(old(heap), old(mem[..]), cur, changed)
      ensures !changed ==> cur == cur0 && heap[cur].prevBlock !in Frees(heap)
    {
      cur, changed := cur0, false;
      assert PrevExact(heap, cur);
      var prevBlock := PrevBlock(cur);
      if !IsAlloc(prevBlock) {
        MergeFreeBlocks(prevBlock, cur, cur);
        cur, changed := prevBlock, true;
      }
    }

    method JoinAfter(cur: nat) returns (changed: bool)
      requires Ordered() && cur in Frees(heap) && CoalescedExcept(heap, cur)
      modifies mem, this`heap
      ensures Joined(old(heap), old(mem[..]), cur, changed)
      ensures !changed ==> cur + heap[cur].units !in Frees(heap)
    {
      changed := false;
      FreeNext(heap, size, cur);
      var nextBlock := NextBlock(cur);
      if !IsAlloc(nextBlock) {
        MergeFreeBlocks(cur, nextBlock, cur);
        changed := true;
      }
    }

    // One pass of the joining loop of free_sheep.
    method JoinOnce(cur0: nat) returns (cur: nat, changed: bool)
      requires Ordered() && cur0 in Frees(heap) && CoalescedExcept(heap, cur0)
      modifies mem, this`heap
      ensures Joined(old(heap), old(mem[..]), cur, changed) && (!changed ==> Coalesced(heap))
    {
      var before, behind: bool;
      cur, before := JoinBefore(cur0);
      behind := JoinAfter(cur);
      changed := before || behind;
      if !changed {
        JoinedAll(heap, size, cur);
      }
    }

    /** free_sheep: the block leaves the live ones, free neighbours are joined again, and
        no payload word of any block that was live is written. */
    method Free(p: nat)
      requires Valid() && p >= 2 && p - 2 in Live(heap)
      modifies mem, this`heap
      ensures Valid() && Live(heap) == Live(old(heap)) - {p - 2}
      ensures PayloadsKept(old(heap), old(mem[..]), mem[..])
    {
      var cur := p - 2;
      Small(cur);
      assert 0 < cur < size;
      PutBack(cur);
      var changed := true;
      while changed
        invariant Ordered() && Live(heap) == Live(old(heap)) - {p - 2}
        invariant cur in Frees(heap) && CoalescedExcept(heap, cur) && (!changed ==> Coalesced(heap))
        invariant heap.Keys <= old(heap).Keys && Framed(old(mem[..]), mem[..], old(heap).Keys)
        decreases |heap.Keys|, changed
      {
        cur, changed := JoinOnce(cur);
      }
      FreedPayloads(old(heap), size, old(mem[..]), mem[..]);
    }
  }

  lemma FreeNext(h: Heap, size: nat, cur: nat)
    requires WellFormed(h, size) && cur in Frees(h)
    ensures cur != 0 && 0 in h && (cur + h[cur].units < size ==> cur + h[cur].units in h)
    ensures cur + h[cur].units >= size ==> cur + h[cur].units !in h
  {
    assert Closed(Extent(h), size, cur);
    forall u | u in h
      ensures u < size
    {
      assert Closed(Extent(h), size, u);
    }
  }

  lemma JoinedAll(h: Heap, size: nat, cur: nat)
    requires WellFormed(h, size) && cur in Frees(h) && CoalescedExcept(h, cur)
    requires h[cur].prevBlock !in Frees(h) && cur + h[cur].units !in Frees(h)
    ensures Coalesced(h)
  {
    assert PrevExact(h, cur);
    forall u | u in h
      ensures Alone(h, u)
    {
      if u + h[u].units == cur {
        assert Closed(Extent(h), size, u);
        SamePrevBlock(Extent(h), size, cur, u, h[cur].prevBlock);
      } else if u != cur {
        assert Alone(h, u);
      }
    }
  }

  lemma FreedPayloads(h: Heap, size: nat, m0: seq<Word>, m1: seq<Word>)
    requires WellFormed(h, size) && Framed(m0, m1, h.Keys)
    ensures PayloadsKept(h, m0, m1)
    ensures |m0| >= 8 ==> m1[4] == m0[4] && m1[5] == m0[5] && m1[6] == m0[6] && m1[7] == m0[7]
  {
    assert 0 in h;
    forall u, k: nat | u in h && !h[u].free && 2 * u + 4 <= k < 2 * (u + h[u].units) && k < |m0|
      ensures m1[k] == m0[k]
    {
      PayloadQuiet(h, size, u, k);
    }
  }

  lemma Neighbours(h: Heap, size: nat, cur: nat, pf: nat, nf: nat)
    requires WellFormed(h, size) && cur in Live(h) && PrevIs(Frees(h), cur, pf)
    requires pf in h && NextIs(Frees(h), pf, nf)
    ensures CanLink(h, size, cur, pf, nf)
    ensures nf in h && pf != cur && nf != cur && cur < size && pf < size && nf < size
  {
    assert Closed(Extent(h), size, cur) && Closed(Extent(h), size, pf);
    assert Closed(Extent(h), size, nf);
  }

  lemma LinkDone(h: Heap, size: nat, cur: nat, pf: nat, nf: nat)
    requires CanLink(h, size, cur, pf, nf) && Coalesced(h)
    requires pf in h && nf in h && pf != cur && nf != cur
    ensures var h' := LinkSteps(h, cur, pf, nf);
      WellFormed(h', size) && Live(h') == Live(h) - {cur} && cur in Frees(h') && CoalescedExcept(h', cur)
  {
    LinkedInSteps(h, cur, pf, nf);
    LinkedInKeeps(h, size, cur, pf, nf);
    LinkedInCoalesced(h, size, cur, pf, nf);
  }

  lemma MergeDone(h: Heap, size: nat, a: nat, b: nat, nb: nat, cur: nat)
    requires CanMerge(h, size, a, b) && CoalescedExcept(h, cur) && (cur == a || cur == b) && nb in h
    requires nb == if b + h[b].units >= size then 0 else b + h[b].units
    ensures h[b].nextFree in h && h[b].nextFree < size && a + h[a].units + h[b].units <= size
    ensures var h' := MergeSteps(h, a, b, nb) - {b};
      && WellFormed(h', size) && Live(h') == Live(h) && a in Frees(h') && CoalescedExcept(h', a)
      && h'.Keys == h.Keys - {b}
  {
    MergeRoom(h, size, a, b);
    MergedInSteps(h, a, b, nb);
    MergedKeeps(h, size, a, b);
    MergedCoalesced(h, size, a, b, cur);
  }

  lemma MergeRoom(h: Heap, size: nat, a: nat, b: nat)
    requires CanMerge(h, size, a, b)
    ensures h[b].nextFree in h && h[b].nextFree != a && h[b].nextFree != b && h[b].nextFree < size
    ensures 0 < a < b && h[b].units > 0 && a + h[a].units + h[b].units <= size && 0 in h
    ensures if b + h[b].units >= size then b + h[b].units !in h else b + h[b].units in h
  {
    assert Linked(h, b) && Closed(Extent(h), size, a) && Closed(Extent(h), size, b);
    assert Closed(Extent(h), size, h[b].nextFree);
    forall u | u in h
      ensures u < size
    {
      assert Closed(Extent(h), size, u);
    }
  }

  // Payload words lie outside all headers.
  lemma PayloadQuiet(h: Heap, size: nat, u: nat, k: nat)
    requires WellFormed(h, size) && u in h && 2 * u + 4 <= k < 2 * (u + h[u].units)
    ensures Quiet(h.Keys, k)
  {
    forall v | v in h.Keys
      ensures k < 2 * v || 2 * v + 4 <= k
    {
      assert u in Extent(h) && v in Extent(h);
      assert Closed(Extent(h), size, v);
    }
  }

  lemma TakenPayloads(h: Heap, h': Heap, size: nat, cur: nat, m0: seq<Word>, m1: seq<Word>)
    requires WellFormed(h, size) && WellFormed(h', size) && cur in Frees(h) && cur in Live(h')
    requires Live(h') == Live(h)[cur := Live(h')[cur]]
    requires Framed(m0, m1, h'.Keys)
    ensures PayloadsKept(h, m0, m1)
    ensures |m0| >= 8 ==> m1[4] == m0[4] && m1[5] == m0[5] && m1[6] == m0[6] && m1[7] == m0[7]
  {
    assert 0 in h;
    forall u, k: nat | u in h && !h[u].free && 2 * u + 4 <= k < 2 * (u + h[u].units) && k < |m0|
      ensures m1[k] == m0[k]
    {
      assert u == 0 || u in Live(h);
      assert u == 0 || (u in Live(h') && Live(h')[u] == Live(h)[u]);
      assert u in h' && h'[u].units == h[u].units;
      PayloadQuiet(h', size, u, k);
    }
  }

  // The free blocks that can hold a units, and how much each would waste.
  ghost predicate Fits(h: Heap, a: nat, v: nat)
  {
    v in Frees(h) && h[v].units >= a
  }

  /** First fit takes the lowest block that fits.  Best fit takes the lowest block that
      wastes under 24 bytes if there is one, and otherwise the lowest of those that waste
      least. */
  ghost predicate Chosen(h: Heap, a: nat, firstFit: bool, c: nat)
  {
    && Fits(h, a, c)
    && (if firstFit then forall v: nat :: Fits(h, a, v) ==> c <= v
        else if h[c].units < a + MIN_UNITS then
          forall v: nat :: Fits(h, a, v) && v < c ==> h[v].units >= a + MIN_UNITS
        else forall v: nat :: Fits(h, a, v) ==> h[c].units < h[v].units || (h[c].units == h[v].units && c <= v))
  }

  // best is the choice among the free blocks below cur (all of them if cur is null).
  ghost predicate BestBelow(h: Heap, a: nat, cur: nat, best: nat, bestDiff: nat)
  {
    && (best == 0 ==> bestDiff == 0xFFFF_FFFF)
    && (best != 0 ==> Fits(h, a, best) && bestDiff == h[best].units - a && (cur == 0 || best < cur))
    && (forall v: nat :: Fits(h, a, v) && (cur == 0 || v < cur) ==>
          best != 0 && (h[best].units < h[v].units || (h[best].units == h[v].units && best <= v)))
  }

  // No payload word of an allocated block, the head included, differs.
  ghost predicate PayloadsKept(h: Heap, m0: seq<Word>, m1: seq<Word>)
  {
    forall u, k: nat :: u in h && !h[u].free && 2 * u + 4 <= k < 2 * (u + h[u].units) && k < |m0| && k < |m1|
      ==> m1[k] == m0[k]
  }

  lemma UnlinkedNeighbours(h: Heap, size: nat, cur: nat)
    requires WellFormed(h, size) && cur in Frees(h)
    ensures var h' := Unlinked(h, cur);
      && PrevIs(Frees(h'), cur, h[cur].prevFree) && NextIs(Frees(h'), cur, h[cur].nextFree)
      && Frees(h') == Frees(h) - {cur} && h'[cur].units == h[cur].units && !h'[cur].free
  {
    UnlinkedLinks(h, size, cur);
    assert Linked(h, cur);
  }

  lemma SplitDone(h: Heap, size: nat, cur: nat, a: nat, pf: nat, nf: nat, nb: nat)
    requires CanSplit(h, size, cur, a, pf, nf) && pf in h && nf in h && nb in h
    requires nb == if cur + h[cur].units >= size then 0 else cur + h[cur].units
    requires Coalesced(h) && cur + h[cur].units !in Frees(h)
    ensures var h' := SplitSteps(h, cur, a, pf, nf, nb);
      WellFormed(h', size) && Coalesced(h') && Live(h') == Live(h)[cur := a]
  {
    SplitRoom(h, size, cur, a, pf, nf);
    SplitInSteps(h, cur, a, pf, nf, nb);
    SplitKeeps(h, size, cur, a, pf, nf);
    SplitCoalesced(h, size, cur, a, pf, nf);
  }

  // There is room for the new header, and the links fit 32 bits.
  lemma SplitRoom(h: Heap, size: nat, cur: nat, a: nat, pf: nat, nf: nat)
    requires CanSplit(h, size, cur, a, pf, nf)
    ensures cur + a !in h && Spaced(h.Keys + {cur + a}) && cur + h[cur].units <= size
    ensures pf in h && nf in h && pf < size && nf < size && pf != cur && nf != cur
    ensures if cur + h[cur].units >= size then cur + h[cur].units !in h else cur + h[cur].units in h
  {
    SplitTiled(Extent(h), size, cur, a);
    assert Closed(Extent(h), size, cur) && Closed(Extent(h), size, pf) && Closed(Extent(h), size, nf);
    assert forall v :: v in h ==> v in Extent(h);
    forall u | u in h
      ensures u < size && u + 3 <= u + h[u].units
    {
      assert Closed(Extent(h), size, u);
    }
  }
}
