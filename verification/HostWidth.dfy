/** Host lists with their numbers at the written width: n[08-10] names n08, n09 and n10. The
    parser prints every number afresh, so it keeps the names of a list exactly when no range
    of it starts with a superfluous zero. */
module HostWidth {
  import opened Collections
  import opened Numerals
  import opened HostList

  // The numbers of a range, at least as wide as the first one is written.
  function Names(ns: seq<nat>, width: nat): (r: seq<string>)
    ensures |r| == |ns| && forall i :: 0 <= i < |ns| ==> r[i] == Padded(Decimal(ns[i]), width)
  {
    seq(|ns|, i requires 0 <= i < |ns| => Padded(Decimal(ns[i]), width))
  }

  function GroupNames(rs: seq<Range>): seq<string>
    requires forall i :: 0 <= i < |rs| ==> GoodRange(rs[i])
  {
    if rs == [] then []
    else
      assert GoodRange(rs[0]);
      Names(UpTo(Low(rs[0]), High(rs[0])), |rs[0].first|) + GroupNames(rs[1..])
  }

  // Every string of the first list, in order, before every string of the second.
  function CrossNames(ds: seq<string>, xs: seq<string>): seq<string>
  {
    if ds == [] then [] else Prefixed(ds[0], xs) + CrossNames(ds[1..], xs)
  }

  /** What a list stands for: the ordered cross product, the leftmost group slowest, with
      every number at the width it is written at. */
  function ExpandTail(tail: seq<Group>): seq<string>
    requires forall i :: 0 <= i < |tail| ==> GoodGroup(tail[i])
  {
    if tail == [] then [""]
    else
      assert GoodGroup(tail[0]);
      CrossNames(GroupNames(tail[0].ranges), Prefixed(tail[0].after, ExpandTail(tail[1..])))
  }

  function Expand(h: Host): seq<string>
    requires GoodHost(h)
  {
    Prefixed(h.head, ExpandTail(h.tail))
  }

  function ExpandList(hs: seq<Host>): seq<string>
    requires forall i :: 0 <= i < |hs| ==> GoodHost(hs[i])
  {
    if hs == [] then []
    else
      assert GoodHost(hs[0]);
      Expand(hs[0]) + ExpandList(hs[1..])
  }

  // The range starts with a number as %u would print it.
  predicate Unpadded(r: Range)
  {
    r.first == Decimal(Value(r.first))
  }

  predicate UnpaddedRanges(rs: seq<Range>)
  {
    forall i :: 0 <= i < |rs| ==> Unpadded(rs[i])
  }

  predicate UnpaddedTail(tail: seq<Group>)
  {
    forall i :: 0 <= i < |tail| ==> UnpaddedRanges(tail[i].ranges)
  }

  predicate UnpaddedList(hs: seq<Host>)
  {
    forall i :: 0 <= i < |hs| ==> UnpaddedTail(hs[i].tail)
  }

  // ------------------------------------------------- lists compared by length of names

  // As many strings, each at least as long.
  predicate NoShorter(xs: seq<string>, ys: seq<string>)
  {
    |xs| == |ys| && forall i :: 0 <= i < |xs| ==> |xs[i]| >= |ys[i]|
  }

  // One of them longer.
  predicate Longer(xs: seq<string>, ys: seq<string>)
  {
    NoShorter(xs, ys) && exists i :: 0 <= i < |xs| && |xs[i]| > |ys[i]|
  }

  // What is compared below: the same, or no shorter and somewhere longer.
  predicate Widens(xs: seq<string>, ys: seq<string>, same: bool)
  {
    if same then xs == ys else Longer(xs, ys)
  }

  lemma WidensJoin(a: seq<string>, b: seq<string>, c: seq<string>, d: seq<string>, p: bool, q: bool)
    requires Widens(a, b, p) && Widens(c, d, q)
    ensures Widens(a + c, b + d, p && q)
  {
    if !p {
      var i :| 0 <= i < |a| && |a[i]| > |b[i]|;
      assert (a + c)[i] == a[i] && (b + d)[i] == b[i];
    } else if !q {
      var i :| 0 <= i < |c| && |c[i]| > |d[i]|;
      assert (a + c)[|a| + i] == c[i] && (b + d)[|a| + i] == d[i];
    }
  }

  // Strings of one list in front of those of another.
  lemma WidensPrefixed(x: string, y: string, c: seq<string>, d: seq<string>, p: bool, q: bool)
    requires (if p then x == y else |x| > |y|) && Widens(c, d, q) && c != []
    ensures Widens(Prefixed(x, c), Prefixed(y, d), p && q)
  {
    if !(p && q) {
      var i := 0;
      if p {
        i :| 0 <= i < |c| && |c[i]| > |d[i]|;
      }
      assert |Prefixed(x, c)[i]| > |Prefixed(y, d)[i]|;
    }
  }

  // ------------------------------------------------------------------------ one range

  // Whether every number of a list is at least that wide already.
  predicate Wide(ns: seq<nat>, width: nat)
  {
    forall i :: 0 <= i < |ns| ==> |Decimal(ns[i])| >= width
  }

  lemma {:induction false} UpToWide(lo: nat, hi: nat, width: nat)
    requires lo <= hi
    ensures UpTo(lo, hi) != [] && UpTo(lo, hi)[0] == lo
    ensures Wide(UpTo(lo, hi), width) <==> |Decimal(lo)| >= width
    decreases hi - lo
  {
    if lo < hi {
      UpToWide(lo + 1, hi, width);
      LongerNumeral(lo, lo + 1);
      assert UpTo(lo, hi)[1..] == UpTo(lo + 1, hi);
      WideTail(UpTo(lo, hi), width);
    }
  }

  lemma WideTail(ns: seq<nat>, width: nat)
    requires ns != []
    ensures Wide(ns, width) <==> |Decimal(ns[0])| >= width && Wide(ns[1..], width)
  {
    if |Decimal(ns[0])| >= width && Wide(ns[1..], width) {
      forall i | 0 <= i < |ns| ensures |Decimal(ns[i])| >= width {
        if i > 0 {
          assert ns[i] == ns[1..][i - 1];
        }
      }
    }
  }

  // A range is written at its width exactly when its first number is.
  lemma UnpaddedIsWide(r: Range)
    requires GoodRange(r)
    ensures Unpadded(r) <==> |Decimal(Low(r))| >= |r.first|
    ensures Wide(UpTo(Low(r), High(r)), |r.first|) <==> Unpadded(r)
    ensures UpTo(Low(r), High(r)) != []
  {
    DigitsArePadded(r.first);
    UpToWide(Low(r), High(r), |r.first|);
  }

  // ------------------------------------------------------------------------ one group

  // The names of a list of numbers: all of their width, or some padded.
  lemma {:induction false} CrossWidens(ns: seq<nat>, width: nat, c: seq<string>, d: seq<string>, q: bool)
    requires Widens(c, d, q) && c != [] && ns != []
    ensures Widens(CrossNames(Names(ns, width), c), Cross(ns, d), Wide(ns, width) && q)
  {
    var n := ns[0];
    var p := |Decimal(n)| >= width;
    WidensPrefixed(Padded(Decimal(n), width), Decimal(n), c, d, p, q);
    assert Names(ns, width)[1..] == Names(ns[1..], width);
    WideTail(ns, width);
    if |ns| == 1 {
      assert CrossNames(Names(ns[1..], width), c) == [] && Cross(ns[1..], d) == [];
    } else {
      CrossWidens(ns[1..], width, c, d, q);
      WidensJoin(Prefixed(Padded(Decimal(n), width), c), Prefixed(Decimal(n), d),
        CrossNames(Names(ns[1..], width), c), Cross(ns[1..], d), p && q, Wide(ns[1..], width) && q);
    }
  }

  lemma {:induction false} CrossNamesJoin(a: seq<string>, b: seq<string>, xs: seq<string>)
    ensures CrossNames(a + b, xs) == CrossNames(a, xs) + CrossNames(b, xs)
  {
    if a == [] {
      assert a + b == b;
    } else {
      assert (a + b)[1..] == a[1..] + b;
      CrossNamesJoin(a[1..], b, xs);
    }
  }

  lemma {:induction false} CrossJoin(a: seq<nat>, b: seq<nat>, xs: seq<string>)
    ensures Cross(a + b, xs) == Cross(a, xs) + Cross(b, xs)
  {
    if a == [] {
      assert a + b == b;
    } else {
      assert (a + b)[1..] == a[1..] + b;
      CrossJoin(a[1..], b, xs);
    }
  }

  lemma RangesTail(rs: seq<Range>)
    requires rs != []
    ensures UnpaddedRanges(rs) <==> Unpadded(rs[0]) && UnpaddedRanges(rs[1..])
  {
    if Unpadded(rs[0]) && UnpaddedRanges(rs[1..]) {
      forall i | 0 <= i < |rs| ensures Unpadded(rs[i]) {
        if i > 0 {
          assert rs[i] == rs[1..][i - 1];
        }
      }
    }
  }

  lemma AddNone<T>(a: seq<T>)
    ensures a + [] == a
  {
  }

  // One range, and those behind it.
  lemma JoinWidens(a: seq<string>, ns: seq<nat>, b: seq<string>, ms: seq<nat>, c: seq<string>, d: seq<string>, p: bool, q: bool)
    requires Widens(CrossNames(a, c), Cross(ns, d), p) && Widens(CrossNames(b, c), Cross(ms, d), q)
    ensures Widens(CrossNames(a + b, c), Cross(ns + ms, d), p && q)
  {
    CrossNamesJoin(a, b, c);
    CrossJoin(ns, ms, d);
    WidensJoin(CrossNames(a, c), Cross(ns, d), CrossNames(b, c), Cross(ms, d), p, q);
  }

  lemma RangeWidens(r: Range, c: seq<string>, d: seq<string>, q: bool)
    requires GoodRange(r) && Widens(c, d, q) && c != []
    ensures Widens(CrossNames(Names(UpTo(Low(r), High(r)), |r.first|), c), Cross(UpTo(Low(r), High(r)), d), Unpadded(r) && q)
  {
    UnpaddedIsWide(r);
    CrossWidens(UpTo(Low(r), High(r)), |r.first|, c, d, q);
  }

  lemma {:induction false} GroupWidens(rs: seq<Range>, c: seq<string>, d: seq<string>, q: bool)
    requires rs != [] && forall i :: 0 <= i < |rs| ==> GoodRange(rs[i])
    requires Widens(c, d, q) && c != []
    ensures Widens(CrossNames(GroupNames(rs), c), Cross(Chosen(rs), d), UnpaddedRanges(rs) && q)
  {
    var r, more := rs[0], rs[1..];
    assert GoodRange(r);
    RangeWidens(r, c, d, q);
    RangesTail(rs);
    if more == [] {
      assert GroupNames(more) == [] && Chosen(more) == [];
      AddNone(Names(UpTo(Low(r), High(r)), |r.first|));
      AddNone(UpTo(Low(r), High(r)));
    } else {
      GroupWidens(more, c, d, q);
      JoinWidens(Names(UpTo(Low(r), High(r)), |r.first|), UpTo(Low(r), High(r)), GroupNames(more), Chosen(more), c, d,
        Unpadded(r) && q, UnpaddedRanges(more) && q);
    }
  }

  // ------------------------------------------------------------------ hosts and lists

  lemma {:induction false} TailWidens(tail: seq<Group>)
    requires forall i :: 0 <= i < |tail| ==> GoodGroup(tail[i])
    ensures Widens(ExpandTail(tail), ReprintedTail(tail), UnpaddedTail(tail))
    ensures ReprintedTail(tail) != []
  {
    ReprintedNonEmpty(tail);
    if tail != [] {
      var g := tail[0];
      assert GoodGroup(g);
      TailWidens(tail[1..]);
      var q := UnpaddedTail(tail[1..]);
      WidensPrefixed(g.after, g.after, ExpandTail(tail[1..]), ReprintedTail(tail[1..]), true, q);
      GroupWidens(g.ranges, Prefixed(g.after, ExpandTail(tail[1..])), Prefixed(g.after, ReprintedTail(tail[1..])), q);
      TailTail(tail);
    }
  }

  lemma TailTail(tail: seq<Group>)
    requires tail != []
    ensures UnpaddedTail(tail) <==> UnpaddedRanges(tail[0].ranges) && UnpaddedTail(tail[1..])
  {
    if UnpaddedRanges(tail[0].ranges) && UnpaddedTail(tail[1..]) {
      forall i | 0 <= i < |tail| ensures UnpaddedRanges(tail[i].ranges) {
        if i > 0 {
          assert tail[i] == tail[1..][i - 1];
        }
      }
    }
  }

  lemma ListTail(hs: seq<Host>)
    requires hs != []
    ensures UnpaddedList(hs) <==> UnpaddedTail(hs[0].tail) && UnpaddedList(hs[1..])
  {
    if UnpaddedTail(hs[0].tail) && UnpaddedList(hs[1..]) {
      forall i | 0 <= i < |hs| ensures UnpaddedTail(hs[i].tail) {
        if i > 0 {
          assert hs[i] == hs[1..][i - 1];
        }
      }
    }
  }

  lemma {:induction false} ListWidens(hs: seq<Host>)
    requires forall i :: 0 <= i < |hs| ==> GoodHost(hs[i])
    ensures Widens(ExpandList(hs), ReprintedList(hs), UnpaddedList(hs))
  {
    if hs != [] {
      var h := hs[0];
      assert GoodHost(h);
      TailWidens(h.tail);
      WidensPrefixed(h.head, h.head, ExpandTail(h.tail), ReprintedTail(h.tail), true, UnpaddedTail(h.tail));
      ListWidens(hs[1..]);
      WidensJoin(Expand(h), Reprinted(h), ExpandList(hs[1..]), ReprintedList(hs[1..]),
        UnpaddedTail(h.tail), UnpaddedList(hs[1..]));
      ListTail(hs);
    }
  }

  /** A well-formed list parses to the hosts it stands for if and only if no range in it
      starts with a superfluous zero. With one, the parser still returns as many names,
      none of them longer than it should be and some shorter. */
  lemma ListParsesIffUnpadded(hs: seq<Host>)
    requires hs != [] && forall i :: 0 <= i < |hs| ==> GoodHost(hs[i])
    ensures ParseList(PrintList(hs)) == Some(ExpandList(hs)) <==> UnpaddedList(hs)
    ensures !UnpaddedList(hs) ==> ParseList(PrintList(hs)).Some? && Longer(ExpandList(hs), ParseList(PrintList(hs)).value)
  {
    ListExpands(hs);
    ListWidens(hs);
  }

  lemma TwoNames(d: string, e: string)
    ensures CrossNames([d, e], [""]) == [d, e]
  {
    assert [d, e][1..] == [e] && [e][1..] == [];
    assert d + "" == d && e + "" == e;
    assert CrossNames([e], [""]) == Prefixed(e, [""]) + CrossNames([], [""]) == [e];
    assert Prefixed(d, [""]) == [d];
  }

  lemma TwoNumbers()
    ensures UpTo(1, 2) == [1, 2] && Cross([1, 2], [""]) == ["1", "2"]
  {
    assert UpTo(2, 2) == [2] + UpTo(3, 2) == [2];
    assert [1, 2][1..] == [2] && [2][1..] == [];
    assert Decimal(1) == "1" && Decimal(2) == "2" && "1" + "" == "1" && "2" + "" == "2";
    assert Cross([2], [""]) == Prefixed("2", [""]) + Cross([], [""]) == ["2"];
  }

  lemma OneToTwo()
    ensures Value("01") == 1 && Value("02") == 2
    ensures Padded("1", 2) == "01" && Padded("2", 2) == "02"
  {
    assert "01"[..1] == "0" && "02"[..1] == "0" && "0"[..0] == "";
    assert Value("0") == 0;
    assert Zeros(1) == "0";
  }

  /** n[01-02] stands for n01 and n02; it is parsed to n1 and n2. */
  lemma PaddingLost()
    ensures var h := Host("n", [Group([Range("01", Some("02"))], "")]);
      GoodHost(h) && PrintList([h]) == "n[01-02]" && ExpandList([h]) == ["n01", "n02"] &&
      ParseList("n[01-02]") == Some(["n1", "n2"])
  {
    var r := Range("01", Some("02"));
    var g := Group([r], "");
    var h := Host("n", [g]);
    OneToTwo();
    TwoNumbers();
    TwoNames("01", "02");
    assert Digits("01") && Digits("02");
    assert GoodRange(r) && GoodGroup(g) && GoodHost(h);
    PaddedPrints(r, g, h);
    assert [r][1..] == [] && [g][1..] == [] && [h][1..] == [];
    assert Prefixed("", [""]) == [""];
    PaddedMeans(r, g, h);
    ListExpands([h]);
  }

  lemma PaddedPrints(r: Range, g: Group, h: Host)
    requires r == Range("01", Some("02")) && g == Group([r], "") && h == Host("n", [g]) && GoodGroup(g)
    ensures PrintList([h]) == "n[01-02]"
  {
    assert [g][1..] == [] && PrintTail([]) == "";
    assert PrintRanges([r]) == "01-02" + "]";
    assert PrintTail([g]) == "[" + PrintRanges([r]) + "" + PrintTail([g][1..]) == "[01-02]";
  }

  lemma PaddedMeans(r: Range, g: Group, h: Host)
    requires r == Range("01", Some("02")) && g == Group([r], "") && h == Host("n", [g]) && GoodGroup(g)
    requires Value("01") == 1 && Value("02") == 2 && Padded("1", 2) == "01" && Padded("2", 2) == "02"
    requires UpTo(1, 2) == [1, 2] && Cross([1, 2], [""]) == ["1", "2"] && CrossNames(["01", "02"], [""]) == ["01", "02"]
    ensures ExpandList([h]) == ["n01", "n02"] && ReprintedList([h]) == ["n1", "n2"]
  {
    assert [r][1..] == [] && [g][1..] == [] && [h][1..] == [];
    assert Prefixed("", [""]) == [""];
    assert Names([1, 2], 2) == ["01", "02"];
    AddNone(["01", "02"]);
    AddNone([1, 2]);
    assert GroupNames([]) == [] && Chosen([]) == [];
    assert GroupNames([r]) == ["01", "02"] && Chosen([r]) == [1, 2];
    assert ExpandTail([]) == [""] && ReprintedTail([]) == [""];
    assert ExpandTail([g]) == ["01", "02"] && ReprintedTail([g]) == ["1", "2"];
    PrefixN();
    assert ExpandList([]) == [] && ReprintedList([]) == [];
    AddNone(["n01", "n02"]);
    AddNone(["n1", "n2"]);
  }

  lemma PrefixN()
    ensures Prefixed("n", ["01", "02"]) == ["n01", "n02"] && Prefixed("n", ["1", "2"]) == ["n1", "n2"]
  {
    TwoPrefixed("n", "01", "02");
    TwoPrefixed("n", "1", "2");
    assert "n" + "01" == "n01" && "n" + "02" == "n02" && "n" + "1" == "n1" && "n" + "2" == "n2";
  }

  lemma TwoPrefixed(p: string, d: string, e: string)
    ensures Prefixed(p, [d, e]) == [p + d, p + e]
  {
  }
}
