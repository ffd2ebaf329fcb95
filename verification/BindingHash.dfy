/** The interception table's hash: open addressing with linear probing over 128 slots, in
    which 0 marks a free slot because binding 0 is the one without a name. */
module BindingHash {
  import opened Collections
  import opened Bytes

  const SLOTS := 128
  const MAX_NAME := 20

  type Name = seq<Byte>

  // ------------------------------------------------------------------- hash_func

  // A char widened to unsigned int, sign first.
  function Widened(c: Byte): nat
  {
    if c < 128 then c as nat else TWO_32 - 256 + c as nat
  }

  function Hashed(s: Name): (h: nat)
    ensures h < TWO_32
  {
    if s == [] then 5381 else (Hashed(s[..|s| - 1]) * 33 + Widened(s[|s| - 1])) % TWO_32
  }

  /** hash_func: none for a name that is too long. */
  method HashFunc(s: Name) returns (pos: Option<nat>)
    ensures pos == if |s| > 20 then None else Some(Hashed(s) % 128)
  {
    var hash: nat := 5381;
    var len := 0;
    while len < |s|
      invariant len <= |s| && len <= MAX_NAME && hash == Hashed(s[..len])
    {
      assert s[..len + 1][..len] == s[..len];
      hash := (hash * 33 + Widened(s[len])) % TWO_32;
      len := len + 1;
      if len > MAX_NAME {
        return None;
      }
    }
    assert s[..len] == s;
    return Some(hash % SLOTS);
  }

  /** The hash of "open", step by step, and of a char above 127. */
  lemma HashOfOpen()
    ensures Hashed([111, 112, 101, 110]) == 2090588023 && Home([111, 112, 101, 110]) == 119
    ensures Hashed([200]) == 177517
  {
    var s: Name := [111, 112, 101, 110];
    assert s[..3] == [111, 112, 101] && s[..3][..2] == [111, 112] && s[..3][..2][..1] == [111] && s[..1][..0] == [];
    assert Hashed([111]) == 177684;
    assert Hashed([111, 112]) == 5863684;
    assert Hashed([111, 112, 101]) == 193501673;
  }

  function Home(s: Name): (p: nat)
    ensures p < SLOTS
  {
    Hashed(s) % SLOTS
  }

  // --------------------------------------------------------------------- probing

  function After(p: nat): nat
  {
    if p + 1 == SLOTS then 0 else p + 1
  }

  // The slot d steps on from home.
  function Slot(home: nat, d: nat): (p: nat)
    requires home < SLOTS
    ensures p < SLOTS
  {
    (home + d) % SLOTS
  }

  // The slots from home to d steps on are all taken.
  predicate Taken(t: seq<nat>, home: nat, d: nat)
    requires |t| == SLOTS && home < SLOTS
  {
    forall e :: 0 <= e <= d ==> t[Slot(home, e)] != 0
  }

  predicate HeldAt(t: seq<nat>, name: Name, c: nat, d: nat)
    requires |t| == SLOTS
  {
    d < SLOTS && t[Slot(Home(name), d)] == c && Taken(t, Home(name), d)
  }

  // Binding c can be reached by probing from its home.
  predicate Held(t: seq<nat>, name: Name, c: nat)
    requires |t| == SLOTS
  {
    exists d :: 0 <= d < SLOTS && HeldAt(t, name, c, d)
  }

  // The table after the first cur bindings.
  predicate Filled(t: seq<nat>, names: seq<Name>, cur: nat)
  {
    && |t| == SLOTS && cur <= |names|
    && (forall p :: 0 <= p < SLOTS && t[p] != 0 ==> t[p] < cur && names[t[p]] != [])
    && (forall c :: 0 < c < cur && names[c] != [] ==> Held(t, names[c], c))
  }

  // ------------------------------------------------------------------ free slots

  function Count(t: seq<nat>): nat
  {
    if t == [] then 0 else (if t[0] != 0 then 1 else 0) + Count(t[1..])
  }

  lemma {:induction false} CountUpdate(t: seq<nat>, p: nat, v: nat)
    requires p < |t| && t[p] == 0 && v != 0
    ensures Count(t[p := v]) == Count(t) + 1
  {
    if p == 0 {
      assert t[p := v][1..] == t[1..];
    } else {
      assert t[p := v][1..] == t[1..][p - 1 := v];
      CountUpdate(t[1..], p - 1, v);
    }
  }

  lemma {:induction false} FreeSlot(t: seq<nat>) returns (p: nat)
    requires Count(t) < |t|
    ensures p < |t| && t[p] == 0
  {
    if t[0] == 0 {
      p := 0;
    } else {
      p := FreeSlot(t[1..]);
      p := p + 1;
    }
  }

  lemma {:induction false} CountZero(t: seq<nat>)
    requires forall i :: 0 <= i < |t| ==> t[i] == 0
    ensures Count(t) == 0
  {
    if t != [] {
      CountZero(t[1..]);
    }
  }

  // --------------------------------------------------------------------- filling

  lemma HeldAfter(t: seq<nat>, names: seq<Name>, cur: nat, p: nat, c: nat)
    requires Filled(t, names, cur) && 0 < cur < |names| && p < SLOTS && t[p] == 0
    requires 0 < c < cur && names[c] != []
    ensures Held(t[p := cur], names[c], c)
  {
    assert Held(t, names[c], c);
    var d :| 0 <= d < SLOTS && HeldAt(t, names[c], c, d);
    assert HeldAt(t[p := cur], names[c], c, d);
  }

  lemma FilledMore(t: seq<nat>, names: seq<Name>, cur: nat, p: nat, d: nat)
    requires Filled(t, names, cur) && 0 < cur < |names| && names[cur] != []
    requires d < SLOTS && p == Slot(Home(names[cur]), d) && t[p] == 0
    requires forall e :: 0 <= e < d ==> t[Slot(Home(names[cur]), e)] != 0
    ensures Filled(t[p := cur], names, cur + 1)
  {
    var t' := t[p := cur];
    assert HeldAt(t', names[cur], cur, d);
    forall c | 0 < c < cur + 1 && names[c] != []
      ensures Held(t', names[c], c)
    {
      if c < cur {
        HeldAfter(t, names, cur, p, c);
      }
    }
  }

  // Stepping from slot to slot, wrapping at the end, is adding one to the distance.
  lemma StepsOn(home: nat, d: nat)
    requires home < SLOTS
    ensures After(Slot(home, d)) == Slot(home, d + 1)
  {
  }

  // A free slot is met within one turn.
  lemma MeetsFree(home: nat, p: nat) returns (d: nat)
    requires home < SLOTS && p < SLOTS
    ensures d < SLOTS && Slot(home, d) == p
  {
    d := if p >= home then p - home else p + SLOTS - home;
  }

  // The first free slot from home on.
  method Probe(table: array<nat>, home: nat) returns (pos: nat, ghost d: nat)
    requires table.Length == SLOTS && home < SLOTS && Count(table[..]) < SLOTS
    ensures d < SLOTS && pos == Slot(home, d) && table[pos] == 0
    ensures forall e :: 0 <= e < d ==> table[Slot(home, e)] != 0
  {
    ghost var free := FreeSlot(table[..]);
    ghost var limit := MeetsFree(home, free);
    pos, d := home, 0;
    while table[pos] != 0
      invariant d <= limit && pos == Slot(home, d)
      invariant forall e :: 0 <= e < d ==> table[Slot(home, e)] != 0
      decreases limit - d
    {
      StepsOn(home, d);
      pos := pos + 1;
      if pos == SLOTS {
        pos := 0;
      }
      d := d + 1;
    }
  }

  // What the source demands of the bindings: the first has no name, the names are short
  // and distinct, and there are fewer of them, with the end marker, than slots.
  predicate GoodNames(names: seq<Name>)
  {
    && 0 < |names| && |names| + 1 < SLOTS && names[0] == []
    && (forall i :: 0 <= i < |names| ==> |names[i]| <= MAX_NAME)
    && (forall i, j :: 0 <= i < j < |names| && names[i] != [] ==> names[i] != names[j])
  }

  /** init_bindings_hash, from a table of zeros. */
  method InitBindingsHash(names: seq<Name>) returns (table: array<nat>)
    requires GoodNames(names)
    ensures fresh(table) && Filled(table[..], names, |names|) && Count(table[..]) < SLOTS
  {
    table := new nat[SLOTS](_ => 0);
    CountZero(table[..]);
    var cur: nat := 0;
    while cur < |names|
      invariant cur <= |names| && fresh(table) && table.Length == SLOTS
      invariant Filled(table[..], names, cur) && Count(table[..]) <= cur
    {
      if names[cur] != [] {
        var pos := HashFunc(names[cur]);
        ghost var d;
        var p;
        p, d := Probe(table, pos.value);
        ghost var t := table[..];
        FilledMore(t, names, cur, p, d);
        CountUpdate(t, p, cur);
        table[p] := cur;
        assert table[..] == t[p := cur];
      }
      cur := cur + 1;
    }
  }

  // ---------------------------------------------------------------------- lookup

  /** The reference: a linear scan of the bindings that have a name. */
  function Scan(names: seq<Name>, name: Name, from: nat): (k: nat)
    requires from <= |names|
    ensures from <= k <= |names| && (k < |names| ==> names[k] == name && name != [])
    ensures forall i :: from <= i < k ==> names[i] != name || name == []
    decreases |names| - from
  {
    if from == |names| || (names[from] != [] && names[from] == name) then from else Scan(names, name, from + 1)
  }

  /** lookup_in_binding_hash returns what the linear scan returns, for every string; the
      number of bindings stands for "not found". */
  method Lookup(table: array<nat>, names: seq<Name>, name: Name) returns (k: nat)
    requires GoodNames(names) && Filled(table[..], names, |names|) && Count(table[..]) < SLOTS
    ensures k == Scan(names, name, 0)
  {
    k := |names|;
    var pos := HashFunc(name);
    if pos.None? {
      return;
    }
    ghost var free := FreeSlot(table[..]);
    ghost var limit := MeetsFree(pos.value, free);
    var p := pos.value;
    ghost var d: nat := 0;
    while table[p] != 0
      invariant d <= limit && p == Slot(Home(name), d)
      invariant forall e :: 0 <= e < d ==> table[Slot(Home(name), e)] != 0 && names[table[Slot(Home(name), e)]] != name
      decreases limit - d
    {
      var idx := table[p];
      assert table[..][p] == idx;
      if names[idx] == name {
        Unique(names, name, idx);
        return idx;
      }
      StepsOn(Home(name), d);
      p := p + 1;
      if p == SLOTS {
        p := 0;
      }
      d := d + 1;
    }
    NotThere(table[..], names, name, d);
  }

  lemma Unique(names: seq<Name>, name: Name, k: nat)
    requires GoodNames(names) && k < |names| && names[k] == name && name != []
    ensures Scan(names, name, 0) == k
  {
    var s := Scan(names, name, 0);
    assert s <= k;
  }

  // Probing met a free slot before meeting the name, so no binding has it.
  lemma NotThere(t: seq<nat>, names: seq<Name>, name: Name, d: nat)
    requires GoodNames(names) && Filled(t, names, |names|) && d < SLOTS && t[Slot(Home(name), d)] == 0
    requires forall e :: 0 <= e < d ==> t[Slot(Home(name), e)] != 0 && names[t[Slot(Home(name), e)]] != name
    ensures Scan(names, name, 0) == |names|
  {
    forall k | 0 < k < |names| && names[k] != []
      ensures names[k] != name
    {
      assert Held(t, names[k], k);
      var e :| 0 <= e < SLOTS && HeldAt(t, names[k], k, e);
      assert t[Slot(Home(names[k]), e)] == k;
    }
  }
}
