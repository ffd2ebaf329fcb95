/** Which bracket groups of a host list read, by their text.  A range that falls is refused; a
    comma before the closing bracket is let through, and so is any character whatever behind
    a range with a dash. */
module HostGroups {
  import opened Collections
  import opened Numerals
  import opened HostList

  // One range and the character behind it.
  datatype Item = Item(range: Range, sep: char)

  // A rising range; behind a single number stands a comma or the closing bracket, behind a
  // range with a dash anything but a digit.
  predicate GoodItem(it: Item)
  {
    GoodRange(it.range) && !IsDigit(it.sep) && (it.range.second.None? ==> it.sep == ',' || it.sep == ']')
  }

  predicate GoodItems(its: seq<Item>)
  {
    forall i :: 0 <= i < |its| ==> GoodItem(its[i])
  }

  function ItemText(it: Item): (s: string)
  {
    PrintRange(it.range) + [it.sep]
  }

  function ItemsText(its: seq<Item>): string
  {
    if its == [] then "" else ItemText(its[0]) + ItemsText(its[1..])
  }

  function ItemNumbers(its: seq<Item>): seq<nat>
    requires GoodItems(its)
  {
    if its == [] then []
    else
      assert GoodItem(its[0]);
      UpTo(Low(its[0].range), High(its[0].range)) + ItemNumbers(its[1..])
  }

  // The text of a group whose bracket closes at c, with the bracket or just short of it.
  predicate Spells(its: seq<Item>, s: string, c: nat)
    requires c < |s|
  {
    its != [] && GoodItems(its) && (ItemsText(its) == s[..c + 1] || ItemsText(its) == s[..c])
  }

  predicate ClosesAt(s: string, c: nat)
  {
    c < |s| && s[c] == ']' && ']' !in s[..c]
  }

  // ---------------------------------------------------------------- what reads is spelt

  // The item at the front of a text that reads.
  lemma FirstItem(s: string, c: nat) returns (it: Item)
    requires ClosesAt(s, c) && ReadRange(s).Some?
    ensures GoodItem(it) && 2 <= |ItemText(it)| <= c + 1 && ItemText(it) == s[..|ItemText(it)|]
    ensures ReadRange(s) == Some(Read(|ItemText(it)|, Low(it.range), High(it.range)))
  {
    var k := DigitRun(s);
    DigitsStop(s, c, 0, k);
    if s[k] == '-' {
      it := DashedItem(s, c, k);
    } else {
      it := Item(Range(s[..k], None), s[k]);
      assert ItemText(it) == s[..k + 1];
    }
  }

  // A run of digits ends at the closing bracket at the latest.
  lemma DigitsStop(s: string, c: nat, from: nat, k: nat)
    requires ClosesAt(s, c) && from <= c && from + k <= |s| && Digits(s[from..from + k])
    ensures from + k <= c
  {
    forall j | from <= j < from + k
      ensures IsDigit(s[j])
    {
      assert s[from..from + k][j - from] == s[j];
    }
  }

  lemma DashedItem(s: string, c: nat, k: nat) returns (it: Item)
    requires ClosesAt(s, c) && ReadRange(s).Some? && k == DigitRun(s) < c && s[k] == '-'
    ensures GoodItem(it) && 2 <= |ItemText(it)| <= c + 1 && ItemText(it) == s[..|ItemText(it)|]
    ensures ReadRange(s) == Some(Read(|ItemText(it)|, Low(it.range), High(it.range)))
  {
    var m := DigitRun(s[k + 1..]);
    Cut(s, k, m);
    DigitsStop(s, c, k + 1, m);
    it := Item(Range(s[..k], Some(s[k + 1..][..m])), s[k + 1 + m]);
  }

  lemma Cut(s: string, k: nat, m: nat)
    requires k + 1 + m <= |s| && s[k] == '-'
    ensures s[k + 1..][..m] == s[k + 1..k + 1 + m]
    ensures k + 1 + m < |s| ==>
      s[k + 1..][m] == s[k + 1 + m] && s[..k] + "-" + s[k + 1..][..m] + [s[k + 1 + m]] == s[..k + 1 + m + 1]
  {
  }

  lemma ClosesLater(s: string, c: nat, k: nat)
    requires ClosesAt(s, c) && k <= c
    ensures ClosesAt(s[k..], c - k)
  {
    assert s[k..][..c - k] == s[k..c];
    assert forall x :: x in s[k..c] ==> x in s[..c];
  }

  lemma {:induction false} ReadIsSpelt(s: string, c: nat) returns (its: seq<Item>)
    requires ClosesAt(s, c) && ReadGroup(s, c).ok
    ensures Spells(its, s, c) && ReadGroup(s, c).ns == ItemNumbers(its)
    decreases |s|
  {
    var it := FirstItem(s, c);
    var k := |ItemText(it)|;
    if k < c {
      ClosesLater(s, c, k);
      var more := ReadIsSpelt(s[k..], c - k);
      its := [it] + more;
      ItemAndMore(it, more);
      SpellFront(s, c, k, more);
    } else {
      its := [it];
      OneItem(it);
    }
  }

  lemma ItemAndMore(it: Item, more: seq<Item>)
    requires GoodItem(it) && GoodItems(more)
    ensures GoodItems([it] + more) && ItemsText([it] + more) == ItemText(it) + ItemsText(more)
    ensures ItemNumbers([it] + more) == UpTo(Low(it.range), High(it.range)) + ItemNumbers(more)
  {
    assert ([it] + more)[1..] == more;
  }

  lemma OneItem(it: Item)
    requires GoodItem(it)
    ensures ItemsText([it]) == ItemText(it) && ItemNumbers([it]) == UpTo(Low(it.range), High(it.range))
  {
    assert [it][1..] == [] && ItemText(it) + "" == ItemText(it);
    assert UpTo(Low(it.range), High(it.range)) + [] == UpTo(Low(it.range), High(it.range));
  }

  lemma SpellFront(s: string, c: nat, k: nat, more: seq<Item>)
    requires k < c < |s| && Spells(more, s[k..], c - k)
    ensures s[..k] + ItemsText(more) == s[..c + 1] || s[..k] + ItemsText(more) == s[..c]
  {
    assert s[..k] + s[k..][..c - k + 1] == s[..c + 1];
    assert s[..k] + s[k..][..c - k] == s[..c];
  }

  // ---------------------------------------------------------------- what is spelt reads

  lemma ItemRead(it: Item, x: string)
    requires GoodItem(it)
    ensures ReadRange(ItemText(it) + x) == Some(Read(|ItemText(it)|, Low(it.range), High(it.range)))
  {
    Regroup(PrintRange(it.range), [it.sep], x);
    if it.range.second.Some? {
      FindPrintedDash(it.range.first, it.range.second.value, [it.sep] + x);
    } else {
      FindPrinted(it.range, it.sep, x);
    }
  }

  lemma ItemGroup(it: Item, x: string, c: nat)
    requires GoodItem(it)
    ensures ReadGroup(ItemText(it) + x, c) ==
      var here := UpTo(Low(it.range), High(it.range));
      if |ItemText(it)| < c then
        var more := ReadGroup(x, c - |ItemText(it)|);
        Numbers(here + more.ns, more.ok)
      else Numbers(here, true)
  {
    ItemRead(it, x);
    assert (ItemText(it) + x)[|ItemText(it)|..] == x;
  }

  lemma ItemsLength(its: seq<Item>)
    requires its != [] && GoodItems(its)
    ensures |ItemsText(its)| >= 2
  {
    assert GoodItem(its[0]);
  }

  // The bracket closes at the end of the items, or one character further on.
  lemma {:induction false} SpeltReads(its: seq<Item>, x: string, c: nat)
    requires its != [] && GoodItems(its) && (|ItemsText(its)| == c + 1 || |ItemsText(its)| == c)
    ensures ReadGroup(ItemsText(its) + x, c) == Numbers(ItemNumbers(its), true)
  {
    var it, rest := its[0], its[1..];
    assert GoodItem(it);
    Regroup(ItemText(it), ItemsText(rest), x);
    ItemGroup(it, ItemsText(rest) + x, c);
    if rest == [] {
      assert ItemNumbers(rest) == [];
      assert ItemNumbers(its) == UpTo(Low(it.range), High(it.range)) + [];
    } else {
      ItemsLength(rest);
      SpeltReads(rest, x, c - |ItemText(it)|);
    }
  }

  /** A group reads if and only if its text is spelt by good items, up to the closing bracket
      or, after a comma, just short of it. */
  lemma ReadsIff(s: string, c: nat)
    requires ClosesAt(s, c)
    ensures ReadGroup(s, c).ok <==> exists its :: Spells(its, s, c)
  {
    if ReadGroup(s, c).ok {
      var its := ReadIsSpelt(s, c);
      assert Spells(its, s, c);
    }
    forall its | Spells(its, s, c)
      ensures ReadGroup(s, c).ok
    {
      SpeltIs(its, s, c);
    }
  }

  /** And then its numbers are those of the items, in order. */
  lemma SpeltIs(its: seq<Item>, s: string, c: nat)
    requires c < |s| && Spells(its, s, c)
    ensures ReadGroup(s, c) == Numbers(ItemNumbers(its), true)
  {
    var n := if ItemsText(its) == s[..c + 1] then c + 1 else c;
    FrontAndBack(s, n);
    SpeltReads(its, s[n..], c);
  }

  lemma FrontAndBack<T>(s: seq<T>, n: nat)
    requires n <= |s|
    ensures s[..n] + s[n..] == s
  {
  }

  // ------------------------------------------------------------------- falling ranges

  // As a good item, but the range may fall.
  predicate Formed(it: Item)
  {
    GoodDigits(it.range) && (it.sep == ',' || it.sep == ']')
  }

  lemma FallingRefused(it: Item, x: string)
    requires Formed(it) && !GoodItem(it)
    ensures ReadRange(ItemText(it) + x) == None
  {
    Regroup(PrintRange(it.range), [it.sep], x);
    FindPrinted(it.range, it.sep, x);
  }

  // The text is refused wherever the bracket closes.
  ghost predicate Refused(y: string)
  {
    forall c: nat :: ReadGroup(y, c) == Numbers([], false)
  }

  lemma NothingRead(y: string)
    requires ReadRange(y) == None
    ensures Refused(y)
  {
  }

  // Good items in front of a text that is refused, with the bracket closing further on.
  lemma {:induction false} UpToRefused(its: seq<Item>, text: string, y: string, c: nat)
    requires GoodItems(its) && text == ItemsText(its) && Refused(y) && c > |text|
    ensures ReadGroup(text + y, c) == Numbers(ItemNumbers(its), false)
    decreases |its|
  {
    if its == [] {
      NoItems(y);
    } else {
      var it, t := its[0], ItemsText(its[1..]);
      assert GoodItem(it);
      var d: nat := c - |ItemText(it)|;
      UpToRefused(its[1..], t, y, d);
      ItemBefore(it, t, y, d, c, Numbers(ItemNumbers(its[1..]), false));
    }
  }

  lemma NoItems(y: string)
    ensures ItemsText([]) + y == y && ItemNumbers([]) == []
  {
  }

  lemma ItemBefore(it: Item, t: string, y: string, d: nat, c: nat, more: Numbers)
    requires GoodItem(it) && d > 0 && c == |ItemText(it)| + d && ReadGroup(t + y, d) == more
    ensures ReadGroup(ItemText(it) + t + y, c) == Numbers(UpTo(Low(it.range), High(it.range)) + more.ns, more.ok)
  {
    Regroup(ItemText(it), t, y);
    ItemGroup(it, t + y, c);
  }

  /** A range that falls is refused, whatever good ranges stand before it and whatever stands
      behind it; the numbers of those before it are taken all the same. */
  lemma FallIsRefused(its: seq<Item>, it: Item, x: string, c: nat)
    requires GoodItems(its) && GoodDigits(it.range) && (it.sep == ',' || it.sep == ']')
    requires Low(it.range) > High(it.range) && c > |ItemsText(its)|
    ensures ReadGroup(ItemsText(its) + (ItemText(it) + x), c) == Numbers(ItemNumbers(its), false)
  {
    FallingRefused(it, x);
    NothingRead(ItemText(it) + x);
    UpToRefused(its, ItemsText(its), ItemText(it) + x, c);
  }

  lemma OneTwoThree()
    ensures Value("1") == 1 && Value("2") == 2 && Value("3") == 3
    ensures UpTo(1, 2) == [1, 2] && UpTo(3, 3) == [3]
  {
    assert "1"[..0] == "" && "2"[..0] == "" && "3"[..0] == "";
    assert UpTo(2, 2) == [2] + UpTo(3, 2) && UpTo(3, 3) == [3] + UpTo(4, 3);
  }

  lemma TwoItems(a: Item, b: Item)
    requires GoodItem(a) && GoodItem(b)
    ensures GoodItems([a, b]) && ItemsText([a, b]) == ItemText(a) + ItemText(b)
    ensures ItemNumbers([a, b]) == UpTo(Low(a.range), High(a.range)) + UpTo(Low(b.range), High(b.range))
  {
    OneItem(b);
    ItemAndMore(a, [b]);
    assert [a] + [b] == [a, b];
  }

  /** What stands behind a range with a dash is not looked at: 1-2x3 reads as 1, 2 and 3. */
  lemma AnySeparator()
    ensures ReadGroup("1-2x3]", 5) == Numbers([1, 2, 3], true)
  {
    var a, b := Item(Range("1", Some("2")), 'x'), Item(Range("3", None), ']');
    OneTwoThree();
    assert GoodItem(a) && GoodItem(b);
    TwoItems(a, b);
    assert ItemText(a) == "1-2x" && ItemText(b) == "3]";
    assert "1-2x3]"[..6] == "1-2x" + "3]";
    SpeltIs([a, b], "1-2x3]", 5);
  }
}
