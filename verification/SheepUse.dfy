/** The shared heap in use: whatever sequence of allocations and releases its users make,
    each finds in its block what it wrote there, and in the end the heap is as it began. */
module SheepUse {
  import opened Bytes
  import opened SheepLayout
  import opened SheepCanonical
  import opened Sheep

  const PATTERN: Word := 0xefef_efef

  // The first n words of the payload of block c hold the pattern.
  ghost predicate Patterned(m: seq<Word>, c: nat, n: nat)
  {
    2 * c + 4 + n <= |m| && forall k :: 2 * c + 4 <= k < 2 * c + 4 + n ==> m[k] == PATTERN
  }

  // held: how many words the owner of each live block has written.
  ghost predicate AllPatterned(live: map<nat, nat>, m: seq<Word>, held: map<nat, nat>)
  {
    && held.Keys == live.Keys
    && forall c :: c in held ==> held[c] + 4 <= 2 * live[c] && Patterned(m, c, held[c])
  }

  // ------------------------------------------------------------ writing a payload

  lemma FillKeeps(m: seq<Word>, m': seq<Word>, h: Heap, size: nat, c: nat, n: nat)
    requires InUse(m, h, size) && c in Live(h) && n + 4 <= 2 * Live(h)[c] && |m'| == |m|
    requires forall k :: 0 <= k < |m| && !(2 * c + 4 <= k < 2 * c + 4 + n) ==> m'[k] == m[k]
    ensures InUse(m', h, size)
  {
    assert Closed(Extent(h), size, c) && 0 in Extent(h) && c in Extent(h);
    forall u | u in h
      ensures ShowsAt(m', u, h[u])
    {
      assert ShowsAt(m, u, h[u]);
      OutsidePayload(h, size, c, u);
    }
  }

  // A header lies before a payload or behind it.
  lemma OutsidePayload(h: Heap, size: nat, c: nat, u: nat)
    requires WellFormed(h, size) && c in h && u in h
    ensures 2 * u + 4 <= 2 * c + 4 || 2 * (c + h[c].units) <= 2 * u
  {
    assert c in Extent(h) && u in Extent(h) && Closed(Extent(h), size, u);
  }

  // memset of the first n words of the payload at p.
  method Fill(r: Region, p: nat, n: nat)
    requires r.Valid() && p >= 2 && p - 2 in Live(r.heap) && n + 4 <= 2 * Live(r.heap)[p - 2]
    modifies r.mem
    ensures r.Valid() && r.heap == old(r.heap) && Patterned(r.mem[..], p - 2, n)
    ensures forall k :: 0 <= k < r.mem.Length && !(2 * p <= k < 2 * p + n) ==> r.mem[k] == old(r.mem[k])
  {
    r.Small(p - 2);
    ghost var m := r.mem[..];
    var i := 0;
    while i < n
      invariant 0 <= i <= n
      invariant forall k :: 0 <= k < r.mem.Length && !(2 * p <= k < 2 * p + i) ==> r.mem[k] == m[k]
      invariant forall k :: 2 * p <= k < 2 * p + i ==> r.mem[k] == PATTERN
    {
      r.mem[2 * p + i] := PATTERN;
      i := i + 1;
    }
    FillKeeps(m, r.mem[..], r.heap, r.size, p - 2, n);
  }

  // ------------------------------------------------------------------ the owners

  lemma StillPatterned(h: Heap, m: seq<Word>, m': seq<Word>, c: nat, n: nat)
    requires PayloadsKept(h, m, m') && c in Live(h) && n + 4 <= 2 * Live(h)[c] && |m'| == |m|
    requires Patterned(m, c, n)
    ensures Patterned(m', c, n)
  {
  }

  // What the allocation and filling of block c do to the owner of another block.
  lemma OtherOwner(h: Heap, h': Heap, size: nat, m: seq<Word>, m': seq<Word>, m'': seq<Word>, c: nat, n: nat, d: nat, k: nat)
    requires WellFormed(h', size) && c in Live(h') && d in Live(h) && d in Live(h') && d != c && Live(h')[d] == Live(h)[d]
    requires n + 4 <= 2 * Live(h')[c] && k + 4 <= 2 * Live(h)[d] && |m| == |m'| == |m''|
    requires PayloadsKept(h, m, m') && Patterned(m, d, k)
    requires forall x :: 0 <= x < |m| && !(2 * c + 4 <= x < 2 * c + 4 + n) ==> m''[x] == m'[x]
    ensures Patterned(m'', d, k)
  {
    StillPatterned(h, m, m', d, k);
    LiveBlocksDisjoint(h', size, c, d);
    Apart(m', m'', c, n, d, k);
  }

  // A further block is allocated and filled.
  lemma OneMore(h: Heap, h': Heap, size: nat, m: seq<Word>, m': seq<Word>, m'': seq<Word>, held: map<nat, nat>, c: nat, n: nat)
    requires WellFormed(h', size) && AllPatterned(Live(h), m, held) && c in Frees(h) && c in Live(h')
    requires Live(h') == Live(h)[c := Live(h')[c]] && n + 4 <= 2 * Live(h')[c] && |m| == |m'| == |m''|
    requires PayloadsKept(h, m, m') && Patterned(m'', c, n)
    requires forall k :: 0 <= k < |m| && !(2 * c + 4 <= k < 2 * c + 4 + n) ==> m''[k] == m'[k]
    ensures AllPatterned(Live(h'), m'', held[c := n])
  {
    forall d | d in held
      ensures Patterned(m'', d, held[d])
    {
      assert d in Live(h) && d != c && d in Live(h') && Live(h')[d] == Live(h)[d];
      OtherOwner(h, h', size, m, m', m'', c, n, d, held[d]);
    }
    Joined(Live(h), m'', held, c, Live(h')[c], n);
  }

  lemma Joined(live: map<nat, nat>, m: seq<Word>, held: map<nat, nat>, c: nat, units: nat, n: nat)
    requires AllPatterned(live, m, held) && n + 4 <= 2 * units && Patterned(m, c, n)
    ensures AllPatterned(live[c := units], m, held[c := n])
  {
  }

  // Filling one payload leaves a payload before it or behind it alone.
  lemma Apart(m: seq<Word>, m': seq<Word>, c: nat, n: nat, d: nat, k: nat)
    requires |m'| == |m| && Patterned(m, d, k) && (2 * c + 4 + n <= 2 * d || 2 * d + 4 + k <= 2 * c)
    requires forall x :: 0 <= x < |m| && !(2 * c + 4 <= x < 2 * c + 4 + n) ==> m'[x] == m[x]
    ensures Patterned(m', d, k)
  {
  }

  // A block is released; the others keep what they hold.
  lemma OneLess(h: Heap, h': Heap, m: seq<Word>, m': seq<Word>, held: map<nat, nat>, c: nat)
    requires AllPatterned(Live(h), m, held) && Live(h') == Live(h) - {c} && PayloadsKept(h, m, m') && |m'| == |m|
    ensures AllPatterned(Live(h'), m', held - {c})
  {
    forall d | d in held && d != c
      ensures held[d] + 4 <= 2 * Live(h')[d] && Patterned(m', d, held[d])
    {
      assert d in Live(h) && d in Live(h');
      StillPatterned(h, m, m', d, held[d]);
    }
  }

  datatype Op = Get(size: nat) | Put(c: nat)

  // The check made before a release.
  method CheckPattern(r: Region, p: nat, n: nat) returns (intact: bool)
    requires 2 * p + n <= r.mem.Length
    ensures intact <==> forall k :: 2 * p <= k < 2 * p + n ==> r.mem[k] == PATTERN
  {
    var q := 0;
    while q < n
      invariant 0 <= q <= n && forall k :: 2 * p <= k < 2 * p + q ==> r.mem[k] == PATTERN
    {
      if r.mem[2 * p + q] != PATTERN {
        return false;
      }
      q := q + 1;
    }
    return true;
  }

  method Allocate(r: Region, size: nat, held: map<nat, nat>) returns (held': map<nat, nat>)
    requires r.Valid() && AllPatterned(Live(r.heap), r.mem[..], held) && 0 < size <= TWO_32 - 24
    modifies r`heap, r.mem
    ensures r.Valid() && AllPatterned(Live(r.heap), r.mem[..], held')
  {
    ghost var h, m := r.heap, r.mem[..];
    held' := held;
    var p := r.Malloc(size);
    if p != 0 {
      ghost var m' := r.mem[..];
      Fill(r, p, size / 4);
      OneMore(h, r.heap, r.size, m, m', r.mem[..], held, p - 2, size / 4);
      held' := held[p - 2 := size / 4];
    }
  }

  method Release(r: Region, c: nat, held: map<nat, nat>) returns (held': map<nat, nat>)
    requires r.Valid() && AllPatterned(Live(r.heap), r.mem[..], held) && c in held
    modifies r`heap, r.mem
    ensures r.Valid() && AllPatterned(Live(r.heap), r.mem[..], held') && held' == held - {c}
  {
    ghost var h, m := r.heap, r.mem[..];
    assert Patterned(m, c, held[c]);
    var intact := CheckPattern(r, c + 2, held[c]);
    assert intact;
    r.Free(c + 2);
    OneLess(h, r.heap, m, r.mem[..], held, c);
    held' := held - {c};
  }

  /** test_heap, for every sequence of requests and releases: no assert fails, the heap is
      well formed throughout, and once all that is left is released it is the single free
      block it began as. */
  method TestHeap(r: Region, ops: seq<Op>)
    requires r.Valid() && r.heap == Initial(r.size) && r.size >= HEAD_UNITS + MIN_UNITS
    requires forall i :: 0 <= i < |ops| && ops[i].Get? ==> 0 < ops[i].size <= TWO_32 - 24
    modifies r`heap, r.mem
    ensures r.Valid() && r.heap == Initial(r.size)
  {
    InitialSettled(r.size);
    var held: map<nat, nat> := map[];
    for i := 0 to |ops|
      invariant r.Valid() && AllPatterned(Live(r.heap), r.mem[..], held)
    {
      match ops[i] {
        case Get(size) =>
          held := Allocate(r, size, held);
        case Put(c) =>
          if c in held {
            held := Release(r, c, held);
          }
      }
    }
    while held != map[]
      invariant r.Valid() && AllPatterned(Live(r.heap), r.mem[..], held)
      decreases |held|
    {
      var c :| c in held;
      held := Release(r, c, held);
    }
    assert Live(r.heap) == map[];
    AllFreedIsInitial(r.heap, r.size);
  }
}
