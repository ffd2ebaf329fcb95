/** The consensus on a cache path: every node marks its usable candidates in a mask, the
    masks are and-reduced over all nodes, and every node takes the lowest bit left. */
module CachePaths {
  import opened Collections
  import opened Bits
  import opened CoboCollectives
  import opened CoboCalls

  const SLOTS := 64

  /** 1 << k, computed on a C int and widened to 64 bits.  C defines it for k below 31; beyond
      that it is what the shift instructions do, which take the count modulo 32. */
  function IntShift(k: nat): (v: nat)
    ensures v < TWO_64
  {
    var v := Exp2(k % 32);
    TwoTo64();
    SmallerPower(k % 32, 64);
    if k % 32 == 31 then TWO_64 - v else v
  }

  // The bits of that value.
  predicate Covers(k: nat, i: nat)
  {
    if k % 32 == 31 then 31 <= i < 64 else i == k % 32
  }

  lemma BitOfIntShift(k: nat, i: nat)
    ensures Bit(IntShift(k), i) <==> Covers(k, i)
  {
    if k % 32 == 31 {
      TwoTo31();
      BitOfSignExtended(i);
    } else {
      BitOfExp2(k % 32, i);
    }
  }

  // The bits of a mask are the usable candidates.
  ghost predicate Marks(mask: U64, valid: seq<bool>)
  {
    forall i: nat :: HasBit(mask, i) <==> i < |valid| && valid[i]
  }

  // One of the first n candidates is usable and its shift covers bit i.
  ghost predicate SomeCovers(valid: seq<bool>, n: nat, i: nat)
  {
    exists k: nat :: k < n && k < |valid| && valid[k] && Covers(k, i)
  }

  lemma CoversOneMore(valid: seq<bool>, n: nat, i: nat)
    requires n < |valid|
    ensures SomeCovers(valid, n + 1, i) <==> SomeCovers(valid, n, i) || (valid[n] && Covers(n, i))
  {
    if SomeCovers(valid, n, i) {
      var k: nat :| k < n && k < |valid| && valid[k] && Covers(k, i);
      assert k < n + 1;
    }
  }

  lemma MarkedOne(mask: nat, valid: seq<bool>, n: nat)
    requires n < |valid| && mask < Exp2(64)
    requires forall i: nat :: Bit(mask, i) <==> SomeCovers(valid, n, i)
    ensures var mask' := Or(mask, if valid[n] then IntShift(n) else 0);
      mask' < Exp2(64) && forall i: nat :: Bit(mask', i) <==> SomeCovers(valid, n + 1, i)
  {
    var b := if valid[n] then IntShift(n) else 0;
    TwoTo64();
    OrFits(mask, b, 64);
    forall i: nat
      ensures Bit(Or(mask, b), i) <==> SomeCovers(valid, n + 1, i)
    {
      BitOfOr(mask, b, i);
      BitOfIntShift(n, i);
      ZeroHasNoBits(i);
      CoversOneMore(valid, n, i);
    }
  }

  lemma {:induction false} SmallerPower(a: nat, b: nat)
    requires a < b
    ensures Exp2(a) < Exp2(b)
    decreases b
  {
    if a < b - 1 {
      SmallerPower(a, b - 1);
    }
  }

  // The mask that determineValidCachePaths computes.
  ghost predicate Computed(mask: U64, valid: seq<bool>)
  {
    forall i: nat :: HasBit(mask, i) <==> SomeCovers(valid, 64, i)
  }

  /** determineValidCachePaths: valid[i] is the outcome of validating candidate i. */
  method DetermineValidCachePaths(valid: seq<bool>) returns (mask: U64)
    ensures Computed(mask, valid)
    ensures NoneFrom(valid, 31) ==> Marks(mask, valid)
  {
    TwoTo64();
    var m: nat := 0;
    var offset: nat := 0;
    forall i: nat
      ensures !Bit(0, i)
    {
      ZeroHasNoBits(i);
    }
    while offset < |valid| && offset < SLOTS
      invariant offset <= |valid| && offset <= SLOTS && m < Exp2(64)
      invariant forall i: nat :: Bit(m, i) <==> SomeCovers(valid, offset, i)
    {
      MarkedOne(m, valid, offset);
      m := Or(m, if valid[offset] then IntShift(offset) else 0);
      offset := offset + 1;
    }
    mask := m as U64;
    assert forall i: nat :: HasBit(mask, i) == Bit(m, i);
    assert forall i: nat :: SomeCovers(valid, offset, i) <==> SomeCovers(valid, SLOTS, i);
    if NoneFrom(valid, 31) {
      LowCandidatesMarked(mask, valid);
    }
  }

  // No candidate from n on is usable.
  predicate NoneFrom(valid: seq<bool>, n: nat)
  {
    forall i :: n <= i < |valid| ==> !valid[i]
  }

  lemma LowCandidatesMarked(mask: U64, valid: seq<bool>)
    requires Computed(mask, valid) && NoneFrom(valid, 31)
    ensures Marks(mask, valid)
  {
    forall i: nat
      ensures HasBit(mask, i) <==> i < |valid| && valid[i]
    {
      if i < |valid| && valid[i] {
        assert Covers(i, i);
      }
      if SomeCovers(valid, SLOTS, i) {
        var k: nat :| k < SLOTS && k < |valid| && valid[k] && Covers(k, i);
        assert k == i;
      }
    }
  }

  /** Up to 31 candidates the mask is always right; with more it can be wrong: if only the
      last of the first 32 is usable, the bits above it are set as well. */
  lemma RightIffFew(n: nat)
    ensures (forall valid, mask :: |valid| == n && Computed(mask, valid) ==> Marks(mask, valid)) <==> n <= 31
  {
    if n <= 31 {
      forall valid, mask | |valid| == n && Computed(mask, valid)
        ensures Marks(mask, valid)
      {
        LowCandidatesMarked(mask, valid);
      }
    } else {
      var valid := seq(n, i => i == 31);
      var mask := DeterminedMask(valid);
      assert Covers(31, 32) && SomeCovers(valid, SLOTS, 32);
      assert HasBit(mask, 32) && !Marks(mask, valid);
    }
  }

  // There is such a mask.
  lemma {:induction false} DeterminedMask(valid: seq<bool>) returns (mask: U64)
    ensures Computed(mask, valid)
  {
    TwoTo64();
    var n := if |valid| < SLOTS then |valid| else SLOTS;
    var m := MaskUpTo(valid, n);
    mask := m as U64;
    assert forall i: nat :: HasBit(mask, i) == Bit(m, i);
    assert forall i: nat :: SomeCovers(valid, n, i) <==> SomeCovers(valid, SLOTS, i);
  }

  lemma {:induction false} MaskUpTo(valid: seq<bool>, n: nat) returns (m: nat)
    requires n <= |valid|
    ensures m < Exp2(64) && forall i: nat :: Bit(m, i) <==> SomeCovers(valid, n, i)
  {
    if n == 0 {
      m := 0;
      forall i: nat
        ensures !Bit(0, i)
      {
        ZeroHasNoBits(i);
      }
    } else {
      var low := MaskUpTo(valid, n - 1);
      MarkedOne(low, valid, n - 1);
      m := Or(low, if valid[n - 1] then IntShift(n - 1) else 0);
    }
  }

  function LowestBit(m: nat): (k: nat)
    requires m > 0
    ensures Bit(m, k) && forall j: nat :: j < k ==> !Bit(m, j)
  {
    if m % 2 == 1 then 0
    else
      var k := LowestBit(m / 2) + 1;
      assert forall j: nat :: 0 < j < k ==> Bit(m, j) == Bit(m / 2, j - 1);
      k
  }

  // What the search ends at: bits from 31 on are not told apart.
  function Picked(mask: U64): Option<nat>
  {
    if mask == 0 then None
    else
      var k := LowestBit(mask as nat);
      Some(if k < 31 then k else 31)
  }

  /** getValidCachePathByIndex: nothing for an empty mask, else the lowest bit, or 31 if that
      is lower. */
  method GetValidCachePathByIndex(mask: U64) returns (k: Option<nat>)
    ensures k == Picked(mask)
  {
    if mask == 0 {
      return None;
    }
    var m := mask as nat;
    ghost var low := LowestBit(m);
    LowBit64(m, low);
    ghost var stop := if low < 31 then low else 31;
    StopCovers(stop, low);
    StopsAt(stop, m, low);
    var offset: nat := 0;
    while offset < SLOTS && And(IntShift(offset), m) == 0
      invariant offset <= stop
      decreases stop - offset
    {
      assert offset != stop;
      offset := offset + 1;
    }
    if offset < stop {
      GoesOn(offset, m, low);
    }
    return Some(offset);
  }

  lemma NoCommonBits(a: nat, b: nat)
    requires forall i: nat :: Bit(a, i) ==> !Bit(b, i)
    ensures And(a, b) == 0
  {
    forall i: nat
      ensures Bit(And(a, b), i) == Bit(0, i)
    {
      BitOfAnd(a, b, i);
      ZeroHasNoBits(i);
    }
    SameBits(And(a, b), 0);
  }

  lemma CommonBits(a: nat, b: nat, i: nat)
    requires Bit(a, i) && Bit(b, i)
    ensures And(a, b) != 0
  {
    BitOfAnd(a, b, i);
    ZeroHasNoBits(i);
  }

  // The search goes on below the lowest bit and below 31 ..
  lemma GoesOn(k: nat, m: nat, low: nat)
    requires k < low && k < 31 && forall j: nat :: j < low ==> !Bit(m, j)
    ensures And(IntShift(k), m) == 0
  {
    forall i: nat | Bit(IntShift(k), i)
      ensures !Bit(m, i)
    {
      BitOfIntShift(k, i);
    }
    NoCommonBits(IntShift(k), m);
  }

  // .. and stops there.
  lemma StopsAt(k: nat, m: nat, low: nat)
    requires Bit(m, low) && Covers(k, low)
    ensures And(IntShift(k), m) != 0
  {
    BitOfIntShift(k, low);
    CommonBits(IntShift(k), m, low);
  }

  lemma StopCovers(k: nat, low: nat)
    requires low < 64 && k == if low < 31 then low else 31
    ensures Covers(k, low)
  {
  }

  lemma LowBit64(m: nat, k: nat)
    requires m < TWO_64 && Bit(m, k)
    ensures k < 64
  {
    TwoTo64();
    if k >= 64 {
      HighBits(m, 64, k);
    }
  }

  // ------------------------------------------------------------------- consensus

  // Candidate i is usable on every node.
  ghost predicate Everywhere(n: int, valid: int -> seq<bool>, i: nat)
  {
    forall r :: 0 <= r < n ==> i < |valid(r)| && valid(r)[i]
  }

  // k is the first candidate that is usable on every node, if there is one.
  ghost predicate FirstEverywhere(n: int, valid: int -> seq<bool>, k: Option<nat>)
  {
    match k
    case None => forall i: nat :: !Everywhere(n, valid, i)
    case Some(i) => Everywhere(n, valid, i) && forall j: nat :: j < i ==> !Everywhere(n, valid, j)
  }

  /** Once a node has its reduced mask, in any run and whatever other numeric collective
      calls the run makes, the candidate it picks is the first that is usable on every node;
      so all nodes pick the same one. */
  lemma AllPickTheSame(n: int, prog: nat -> NumCall, input: (int, nat) -> U64, valid: int -> seq<bool>,
                       tr: seq<State<U64>>, i: nat, r: int, k: nat)
    requires Run(NumJob(n, prog, input), tr) && i < |tr| && 0 <= r < n && |tr[i].ranks| == n
    requires k < |tr[i].ranks[r].outs| && prog(k) == Allreduce(BitwiseAnd)
    requires forall q :: 0 <= q < n ==> Computed(input(q, k), valid(q)) && NoneFrom(valid(q), 31)
    ensures FirstEverywhere(n, valid, Picked(tr[i].ranks[r].outs[k]))
  {
    AllreduceEverywhere(n, prog, input, tr, i, r, k);
    var mask := tr[i].ranks[r].outs[k];
    forall q | 0 <= q < n
      ensures Marks(input(q, k), valid(q))
    {
      LowCandidatesMarked(input(q, k), valid(q));
    }
    forall j: nat
      ensures Bit(mask as nat, j) <==> Everywhere(n, valid, j)
    {
      CommonBit(n, prog, input, valid, k, mask, j);
    }
    if mask == 0 {
      forall j: nat
        ensures !Everywhere(n, valid, j)
      {
        ZeroHasNoBits(j);
      }
    } else {
      var low := LowestBit(mask as nat);
      assert Everywhere(n, valid, low) && NoneFrom(valid(0), 31);
      assert low < 31;
    }
  }

  lemma CommonBit(n: int, prog: nat -> NumCall, input: (int, nat) -> U64, valid: int -> seq<bool>,
                  k: nat, mask: U64, j: nat)
    requires n > 0 && Reduces(BitwiseAnd, NumJob(n, prog, input), k, 0, n - 1, mask)
    requires forall q :: 0 <= q < n ==> Marks(input(q, k), valid(q))
    ensures Bit(mask as nat, j) <==> Everywhere(n, valid, j)
  {
    var job := NumJob(n, prog, input);
    assert HasBit(mask, j) == Bit(mask as nat, j);
    forall q | 0 <= q < n
      ensures HasBit(job.input(q, k), j) <==> j < |valid(q)| && valid(q)[j]
    {
      assert Marks(input(q, k), valid(q));
    }
  }
}
