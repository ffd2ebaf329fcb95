/** The table of GOT ranges: a sorted array shifted in place, and the bisection over it. */
module WritableGot {

  // struct got_range_t; lib stands for the link_map pointer
  datatype Range = Range(start: nat, end: nat, lib: nat, writable: bool, isNew: bool)

  // --------------------------------------------------------------------- tables

  predicate Sorted(t: seq<Range>)
  {
    forall i, j :: 0 <= i < j < |t| ==> t[i].start < t[j].start
  }

  // Ranges are not empty and do not overlap.
  predicate Apart(t: seq<Range>)
  {
    && (forall i :: 0 <= i < |t| ==> t[i].start < t[i].end)
    && (forall i, j :: 0 <= i < j < |t| ==> t[i].end <= t[j].start)
  }

  // The number of entries that start below an address.
  function Below(t: seq<Range>, start: nat): (k: nat)
    ensures k <= |t| && (forall i :: 0 <= i < k ==> t[i].start < start) && (k < |t| ==> t[k].start >= start)
  {
    if t == [] || t[0].start >= start then 0 else 1 + Below(t[1..], start)
  }

  predicate Known(t: seq<Range>, start: nat)
  {
    exists i :: 0 <= i < |t| && t[i].start == start
  }

  function Inserted(t: seq<Range>, r: Range): seq<Range>
  {
    t[..Below(t, r.start)] + [r] + t[Below(t, r.start)..]
  }

  lemma InsertedAt(t: seq<Range>, r: Range, i: nat)
    requires i <= |t|
    ensures |Inserted(t, r)| == |t| + 1
    ensures var k := Below(t, r.start);
      Inserted(t, r)[i] == if i < k then t[i] else if i == k then r else t[i - 1]
  {
  }

  /** An insertion keeps the table sorted, and loses no entry. */
  lemma InsertKeepsSorted(t: seq<Range>, r: Range)
    requires Sorted(t) && !Known(t, r.start)
    ensures Sorted(Inserted(t, r)) && multiset(Inserted(t, r)) == multiset(t) + multiset{r}
  {
    var k := Below(t, r.start);
    assert k < |t| ==> t[k].start > r.start;
    forall i, j | 0 <= i < j <= |t|
      ensures Inserted(t, r)[i].start < Inserted(t, r)[j].start
    {
      InsertedAt(t, r, i);
      InsertedAt(t, r, j);
    }
    InsertedAt(t, r, 0);
    SameEntries(t, k, r);
  }

  lemma SameEntries(t: seq<Range>, k: nat, r: Range)
    requires k <= |t|
    ensures multiset(t[..k] + [r] + t[k..]) == multiset(t) + multiset{r}
  {
    assert t == t[..k] + t[k..];
  }

  // What is left of the table when an existing start is refused after the shift.
  function Shifted(t: seq<Range>, k: nat): seq<Range>
    requires k < |t|
  {
    if k + 2 >= |t| then t else t[..k + 2] + t[k + 1..|t| - 1]
  }

  /** Adding a range whose start is known leaves the table as it was exactly when at most one
      entry lies above it; otherwise one entry is doubled and the last is lost. */
  lemma RefusalKeepsTable(t: seq<Range>, start: nat)
    requires Sorted(t) && Known(t, start)
    ensures Below(t, start) < |t| && t[Below(t, start)].start == start
    ensures Shifted(t, Below(t, start)) == t <==> |t| - Below(t, start) <= 2
  {
    var i :| 0 <= i < |t| && t[i].start == start;
    var k := Below(t, start);
    assert i == k;
    if k + 2 < |t| {
      var s := Shifted(t, k);
      assert s[k + 2] == t[k + 1] && t[k + 1].start < t[k + 2].start;
    }
  }

  lemma RefusalCanLose()
    ensures
      var a, b, c := Range(10, 11, 1, false, true), Range(20, 21, 2, false, true), Range(30, 31, 3, false, true);
      Shifted([a, b, c], Below([a, b, c], 10)) == [a, b, b]
  {
    var a, b, c := Range(10, 11, 1, false, true), Range(20, 21, 2, false, true), Range(30, 31, 3, false, true);
    var t := [a, b, c];
    assert Below(t, 10) == 0;
    assert t[..2] == [a, b] && t[1..2] == [b];
  }

  // The first entry of a library.
  function EntryOf(t: seq<Range>, lib: nat): (k: nat)
    ensures k <= |t| && (forall i :: 0 <= i < k ==> t[i].lib != lib) && (k < |t| ==> t[k].lib == lib)
  {
    if t == [] || t[0].lib == lib then 0 else 1 + EntryOf(t[1..], lib)
  }

  function Removed(t: seq<Range>, k: nat): seq<Range>
    requires k < |t|
  {
    t[..k] + t[k + 1..]
  }

  lemma RemoveKeepsSorted(t: seq<Range>, k: nat)
    requires k < |t| && Sorted(t)
    ensures Sorted(Removed(t, k)) && multiset(Removed(t, k)) == multiset(t) - multiset{t[k]}
  {
    assert t == t[..k] + [t[k]] + t[k + 1..];
  }

  predicate Disjoint(r: Range, q: Range)
  {
    r.end <= q.start || q.end <= r.start
  }

  /** A new range that overlaps none keeps the ranges apart. */
  lemma InsertKeepsApart(t: seq<Range>, r: Range)
    requires Sorted(t) && Apart(t) && !Known(t, r.start) && r.start < r.end
    requires forall i :: 0 <= i < |t| ==> Disjoint(r, t[i])
    ensures Apart(Inserted(t, r))
  {
    var k := Below(t, r.start);
    assert k < |t| ==> t[k].start > r.start;
    forall i, j | 0 <= i <= j <= |t|
      ensures Inserted(t, r)[i].start < Inserted(t, r)[i].end
      ensures i < j ==> Inserted(t, r)[i].end <= Inserted(t, r)[j].start
    {
      InsertedAt(t, r, i);
      InsertedAt(t, r, j);
      assert i < j && j == k ==> Disjoint(r, t[i]);
      assert i < j && i == k ==> Disjoint(r, t[j - 1]) && t[j - 1].start > r.start;
    }
    InsertedAt(t, r, 0);
  }

  lemma RemoveKeepsApart(t: seq<Range>, k: nat)
    requires k < |t| && Apart(t)
    ensures Apart(Removed(t, k))
  {
  }

  // ------------------------------------------------------------------- searching

  predicate Contains(r: Range, addr: nat)
  {
    r.start <= addr < r.end
  }

  // The reference: the first range that contains the address, or the table's length.
  function LinearScan(t: seq<Range>, addr: nat): (k: nat)
    ensures k <= |t| && (k < |t| ==> Contains(t[k], addr))
    ensures forall i :: 0 <= i < k ==> !Contains(t[i], addr)
  {
    if t == [] || Contains(t[0], addr) then 0 else 1 + LinearScan(t[1..], addr)
  }

  // The bisection of make_got_writable; the table's length stands for "not found".
  function Bisect(t: seq<Range>, addr: nat, low: nat, hi: nat, prev: int): nat
    requires low <= hi <= |t|
    decreases hi - low, if prev == (hi + low) / 2 then 0 else 1
  {
    if low == hi then |t|
    else
      var cur := (hi + low) / 2;
      if cur == prev || cur == |t| then |t|
      else if Contains(t[cur], addr) then cur
      else if addr > t[cur].start then Bisect(t, addr, cur, hi, cur)
      else if addr < t[cur].start then Bisect(t, addr, low, cur, cur)
      else Bisect(t, addr, low, hi, cur)
  }

  lemma {:induction false} BisectBetween(t: seq<Range>, addr: nat, low: nat, hi: nat, prev: int)
    requires low <= hi <= |t| && Sorted(t) && Apart(t)
    requires forall i :: 0 <= i < |t| && Contains(t[i], addr) ==> low <= i < hi
    requires prev == low || prev == hi || prev == -1
    requires 0 <= prev < |t| ==> !Contains(t[prev], addr)
    ensures Bisect(t, addr, low, hi, prev) == LinearScan(t, addr)
    decreases hi - low, if prev == (hi + low) / 2 then 0 else 1
  {
    var k := LinearScan(t, addr);
    if low < hi {
      var cur := (hi + low) / 2;
      if cur != prev && !Contains(t[cur], addr) {
        if addr > t[cur].start {
          BisectBetween(t, addr, cur, hi, cur);
        } else {
          BisectBetween(t, addr, low, cur, cur);
        }
      }
    }
  }

  /** On disjoint, non-empty ranges in order, the bisection finds what a linear scan finds. */
  lemma BisectIsScan(t: seq<Range>, addr: nat)
    requires Sorted(t) && Apart(t)
    ensures Bisect(t, addr, 0, |t|, -1) == LinearScan(t, addr)
  {
    BisectBetween(t, addr, 0, |t|, -1);
  }

  /** Where ranges overlap, it can miss one that a linear scan finds. */
  lemma BisectCanMiss()
    ensures
      var t := [Range(0, 100, 1, false, true), Range(10, 20, 2, false, true)];
      Sorted(t) && LinearScan(t, 50) == 0 && Bisect(t, 50, 0, 2, -1) == 2
  {
    var t := [Range(0, 100, 1, false, true), Range(10, 20, 2, false, true)];
    assert Bisect(t, 50, 1, 2, 1) == 2;
  }

  // ------------------------------------------------------------ the array in place

  class GotTable {
    var gots: array?<Range>
    var last: nat           // gots_last_entry

    ghost predicate Valid()
      reads this, gots
    {
      if gots == null then last == 0 else last < gots.Length && Sorted(gots[..last])
    }

    ghost function Table(): seq<Range>
      requires Valid()
      reads this, gots
    {
      if gots == null then [] else gots[..last]
    }

    constructor ()
      ensures Valid() && Table() == []
    {
      gots, last := null, 0;
    }

    // Allocating or growing, so that one more entry and its shift fit.
    method MakeRoom()
      requires Valid()
      modifies this`gots
      ensures Valid() && Table() == old(Table()) && gots != null && last + 1 < gots.Length
      ensures gots == old(gots) || fresh(gots)
    {
      if gots == null {
        gots := new Range[32](_ => Range(0, 0, 0, false, false));
      }
      if last + 1 == gots.Length {
        var a := gots;
        var b := new Range[2 * a.Length](_ => Range(0, 0, 0, false, false));
        forall i | 0 <= i < a.Length { b[i] := a[i]; }
        gots := b;
        assert b[..last] == a[..last];
      }
    }

    /** The sorted insert of add_wgot_library, for a library whose range is known. */
    method Add(start: nat, end: nat, lib: nat) returns (ok: bool)
      requires Valid()
      modifies this, gots
      ensures gots != null && (gots == old(gots) || fresh(gots)) && last < gots.Length
      ensures ok <==> !Known(old(Table()), start)
      ensures ok ==> Valid() && Table() == Inserted(old(Table()), Range(start, end, lib, false, true))
      ensures !ok ==> Below(old(Table()), start) < |old(Table())|
      ensures !ok ==> gots[..last] == Shifted(old(Table()), Below(old(Table()), start))
    {
      MakeRoom();
      ok := InsertHere(Range(start, end, lib, false, true));
    }

    method InsertHere(r: Range) returns (ok: bool)
      requires Valid() && gots != null && last + 1 < gots.Length
      modifies this`last, gots
      ensures last < gots.Length
      ensures ok <==> !Known(old(gots[..last]), r.start)
      ensures ok ==> Valid() && gots[..last] == Inserted(old(gots[..last]), r)
      ensures !ok ==> Below(old(gots[..last]), r.start) < old(last)
      ensures !ok ==> gots[..last] == Shifted(old(gots[..last]), Below(old(gots[..last]), r.start))
    {
      ghost var t := gots[..last];
      ok := InsertInto(gots, last, r);
      if ok {
        InsertKeepsSorted(t, r);
        last := last + 1;
      }
    }

    /** rm_wgot_library: the first entry of the library goes, the rest closes up. */
    method Remove(lib: nat) returns (ok: bool)
      requires Valid()
      modifies this`last, gots
      ensures Valid()
      ensures ok <==> EntryOf(old(Table()), lib) < |old(Table())|
      ensures Table() == if ok then Removed(old(Table()), EntryOf(old(Table()), lib)) else old(Table())
    {
      if gots == null {
        return false;
      }
      ghost var t := gots[..last];
      ok := RemoveFrom(gots, last, lib);
      if ok {
        last := last - 1;
        RemoveKeepsSorted(t, EntryOf(t, lib));
      }
    }

    /** The search of make_got_writable; the number of entries stands for "not found". */
    method Find(addr: nat) returns (k: nat)
      requires Valid()
      ensures k == Bisect(Table(), addr, 0, |Table()|, -1)
      ensures Apart(Table()) ==> k == LinearScan(Table(), addr)
    {
      ghost var t := Table();
      var low, hi, prev: int := 0, last, -1;
      while low != hi
        invariant 0 <= low <= hi <= last == |t|
        invariant Bisect(t, addr, low, hi, prev) == Bisect(t, addr, 0, |t|, -1)
        decreases hi - low, if prev == (hi + low) / 2 then 0 else 1
      {
        var cur := (hi + low) / 2;
        if cur == prev || cur == last {
          break;
        } else if gots[cur].start <= addr < gots[cur].end {
          if Apart(t) { BisectIsScan(t, addr); }
          return cur;
        } else if addr > gots[cur].start {
          low := cur;
        } else if addr < gots[cur].start {
          hi := cur;
        }
        prev := cur;
      }
      if Apart(t) { BisectIsScan(t, addr); }
      return last;
    }
  }

  lemma PlaceOf(t: seq<Range>, start: nat, k: nat)
    requires Sorted(t) && k <= |t|
    requires (forall x :: 0 <= x < k ==> t[x].start < start) || (k > 0 && t[k - 1].start < start) || (k < |t| && t[k].start == start)
    requires k < |t| ==> t[k].start >= start
    ensures Below(t, start) == k && (Known(t, start) <==> k < |t| && t[k].start == start)
  {
    assert forall x :: 0 <= x < k ==> t[x].start < start;
  }

  // Moving up the entries that start above r, until the place for it is found.
  method InsertInto(a: array<Range>, last: nat, r: Range) returns (ok: bool)
    requires last + 1 < a.Length && Sorted(a[..last])
    modifies a
    ensures var t := old(a[..last]);
      && (ok <==> !Known(t, r.start))
      && (ok ==> a[..last + 1] == Inserted(t, r))
      && (!ok ==> Below(t, r.start) < |t| && a[..last] == Shifted(t, Below(t, r.start)))
  {
    ghost var t := a[..last];
    var place;
    ok, place := ShiftUp(a, last, r.start);
    PlaceOf(t, r.start, place);
    if ok {
      a[place] := r;
      InsertedTable(t, a[..last + 1], place, r);
    } else {
      RefusedTable(t, a[..last], place);
    }
  }

  method ShiftUp(a: array<Range>, last: nat, start: nat) returns (ok: bool, place: nat)
    requires last + 1 < a.Length && Sorted(a[..last])
    modifies a
    ensures place <= last && (forall x :: place < x < last ==> old(a[x]).start > start)
    ensures ok ==> (place > 0 ==> old(a[place - 1]).start < start) && (place < last ==> old(a[place]).start > start)
    ensures !ok ==> place < last && old(a[place]).start == start
    ensures forall x :: 0 <= x <= (if ok then place else place + 1) && x < last ==> a[x] == old(a[x])
    ensures forall x :: (if ok then place else place + 1) < x <= last ==> a[x] == old(a[x - 1])
  {
    place := last;
    while place > 0
      invariant 0 <= place <= last
      invariant forall x :: 0 <= x <= place && x < last ==> a[x] == old(a[x])
      invariant forall x :: place < x <= last ==> a[x] == old(a[x - 1])
      invariant forall x :: place <= x < last ==> old(a[x]).start > start
    {
      if a[place - 1].start > start {
        a[place] := a[place - 1];
      }
      if a[place - 1].start == start {
        return false, place - 1;
      }
      if a[place - 1].start < start {
        break;
      }
      place := place - 1;
    }
    ok := true;
  }

  lemma RefusedTable(t: seq<Range>, s: seq<Range>, k: nat)
    requires |s| == |t| && k < |t|
    requires forall x :: 0 <= x <= k + 1 && x < |t| ==> s[x] == t[x]
    requires forall x :: k + 1 < x < |t| ==> s[x] == t[x - 1]
    ensures s == Shifted(t, k)
  {
  }

  lemma InsertedTable(t: seq<Range>, s: seq<Range>, k: nat, r: Range)
    requires |s| == |t| + 1 && k == Below(t, r.start) && s[k] == r
    requires forall x :: 0 <= x < k ==> s[x] == t[x]
    requires forall x :: k < x <= |t| ==> s[x] == t[x - 1]
    ensures s == Inserted(t, r)
  {
  }

  method RemoveFrom(a: array<Range>, last: nat, lib: nat) returns (ok: bool)
    requires last <= a.Length
    modifies a
    ensures var t := old(a[..last]);
      && (ok <==> EntryOf(t, lib) < |t|)
      && (if ok then a[..last - 1] == Removed(t, EntryOf(t, lib)) else a[..last] == t)
  {
    ghost var t := a[..last];
    ghost var k := EntryOf(t, lib);
    ok := false;
    var i := 0;
    while i < last
      invariant 0 <= i <= last
      invariant ok <==> k < i
      invariant forall x :: 0 <= x < last && (x < k || x >= i || x + 1 == last) ==> a[x] == t[x]
      invariant forall x :: k <= x < i && x + 1 < last ==> a[x] == t[x + 1]
    {
      assert a[i] == t[i];
      if a[i].lib == lib {
        ok := true;
      }
      if ok && i + 1 < last {
        assert a[i + 1] == t[i + 1];
        a[i] := a[i + 1];
      }
      i := i + 1;
    }
    if ok {
      assert a[..last - 1] == Removed(t, k);
    } else {
      assert a[..last] == t;
    }
  }
}
