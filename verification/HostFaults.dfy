/** Host lists that are not well formed: which faults the parser reports, and which make it
    drop hosts without a word. */
module HostFaults {
  import opened Collections
  import opened Numerals
  import opened HostList

  // ---------------------------------------------------------------------- one host text

  /** The place, counted in groups, of the first group that does not read: one that is not
      closed, or whose text is not what HostGroups.ReadsIff asks for. */
  function BadGroup(text: string): Option<nat>
    decreases Opens(text)
  {
    if '[' !in text then None
    else
      var p := CutText(text);
      CutShrinks(text);
      if p.None? || !ReadGroup(p.value.body, p.value.close).ok then Some(0)
      else OneFurther(BadGroup(p.value.suffix))
  }

  function OneFurther(b: Option<nat>): Option<nat>
  {
    if b.None? then None else Some(b.value + 1)
  }

  /** The direct cross product over the groups of any text, taken as far as each group reads:
      the suffix is expanded once, not once per number. */
  function Product(text: string): seq<string>
    decreases Opens(text)
  {
    if '[' !in text then [text]
    else
      var p := CutText(text);
      CutShrinks(text);
      if p.None? then []
      else Prefixed(p.value.prefix, Cross(ReadGroup(p.value.body, p.value.close).ns, Product(p.value.suffix)))
  }

  /** The texts, expanded up to a group that does not read, that are given up there. */
  function Lost(text: string): seq<string>
    decreases Opens(text), 0, 0
  {
    if '[' !in text then []
    else
      var p := CutText(text);
      CutShrinks(text);
      if p.None? then [text]
      else
        var g := ReadGroup(p.value.body, p.value.close);
        (if g.ok then [] else [text]) + LostEach(p.value.prefix, g.ns, p.value.suffix)
  }

  function LostEach(prefix: string, ns: seq<nat>, suffix: string): seq<string>
    decreases Opens(prefix) + Opens(suffix), 1, |ns|
  {
    if ns == [] then []
    else
      HostOpens(prefix, ns[0], suffix);
      Lost(prefix + Decimal(ns[0]) + suffix) + LostEach(prefix, ns[1..], suffix)
  }

  // Plain text in front of a text only lengthens what stands before its first group.
  lemma CutBehind(p: string, t: string)
    requires '[' !in p
    ensures ('[' in p + t) <==> ('[' in t)
    ensures CutText(p + t).None? <==> CutText(t).None?
    ensures CutText(t).Some? ==>
      var q := CutText(t).value; CutText(p + t) == Some(Parts(p + q.prefix, q.body, q.close, q.suffix))
  {
    var o := IndexOf(t, '[');
    IndexSkips(p, '[', t);
    if o < |t| {
      Behind(p, t, o);
      var c := IndexOf(t[o + 1..], ']');
      if o + 1 + c < |t| {
        Behind(p, t, o + 1 + c);
        CutFound(p + t, p, t, o, c);
      } else {
        CutIsNone(t, o);
        CutIsNone(p + t, |p| + o);
      }
    }
  }

  lemma CutFound(text: string, p: string, t: string, o: nat, c: nat)
    requires |text| == |p| + |t| && o + 1 + c < |t|
    requires IndexOf(t, '[') == o && IndexOf(text, '[') == |p| + o && IndexOf(t[o + 1..], ']') == c
    requires text[..|p| + o] == p + t[..o] && text[|p| + o + 1..] == t[o + 1..]
    requires text[|p| + (o + 1 + c) + 1..] == t[o + 1 + c + 1..]
    ensures CutText(t) == Some(Parts(t[..o], t[o + 1..], c, t[o + 1 + c + 1..]))
    ensures CutText(text) == Some(Parts(p + t[..o], t[o + 1..], c, t[o + 1 + c + 1..]))
  {
    var body := t[o + 1..];
    CutIs(t, t[..o], body);
    CutIs(text, p + t[..o], body);
  }

  lemma CutIsNone(text: string, o: nat)
    requires o < |text| && IndexOf(text, '[') == o && o + 1 + IndexOf(text[o + 1..], ']') == |text|
    ensures CutText(text).None?
  {
  }

  lemma Behind<T>(a: seq<T>, b: seq<T>, o: nat)
    requires o < |b|
    ensures (a + b)[..|a| + o] == a + b[..o] && (a + b)[|a| + o + 1..] == b[o + 1..]
  {
  }

  lemma {:induction false} EachProduct(head: string, ns: seq<nat>, suffix: string, xs: seq<string>)
    requires forall n: nat :: ExpandText(head + Decimal(n) + suffix).hosts == Prefixed(head + Decimal(n), xs)
    ensures ExpandEach(head, ns, suffix) == Prefixed(head, Cross(ns, xs))
  {
    if ns != [] {
      EachProduct(head, ns[1..], suffix, xs);
      PrefixedTwice(head, Decimal(ns[0]), xs);
      PrefixedJoin(head, Prefixed(Decimal(ns[0]), xs), Cross(ns[1..], xs));
    }
  }

  lemma {:induction false} ProductBehind(p: string, t: string)
    requires '[' !in p
    ensures ExpandText(p + t).hosts == Prefixed(p, Product(t))
    decreases Opens(t)
  {
    CutBehind(p, t);
    if '[' in t && CutText(t).Some? {
      var q := CutText(t).value;
      CutShrinks(t);
      NoOpenBefore(t);
      forall n: nat ensures ExpandText(p + q.prefix + Decimal(n) + q.suffix).hosts ==
                            Prefixed(p + q.prefix + Decimal(n), Product(q.suffix)) {
        ProductBehind(p + q.prefix + Decimal(n), q.suffix);
      }
      var ns := ReadGroup(q.body, q.close).ns;
      EachProduct(p + q.prefix, ns, q.suffix, Product(q.suffix));
      PrefixedTwice(p, q.prefix, Cross(ns, Product(q.suffix)));
    }
  }

  lemma NoOpenBefore(t: string)
    ensures CutText(t).Some? ==> '[' !in CutText(t).value.prefix
  {
  }

  /** Over every text, expanding group by group through the text gives the cross product. */
  lemma ExpandsToProduct(text: string)
    ensures ExpandText(text).hosts == Product(text)
  {
    ProductBehind("", text);
    assert "" + text == text;
    forall i | 0 <= i < |Product(text)| ensures "" + Product(text)[i] == Product(text)[i] { }
    assert Prefixed("", Product(text)) == Product(text);
  }

  lemma {:induction false} GoodGroupChooses(s: string, c: nat)
    ensures ReadGroup(s, c).ok ==> ReadGroup(s, c).ns != []
    decreases |s|
  {
    if ReadRange(s).Some? {
      var r := ReadRange(s).value;
      assert UpTo(r.lo, r.hi) != [];
    }
  }

  lemma {:induction false} EachLost(head: string, ns: seq<nat>, suffix: string, bad: bool)
    requires forall n: nat :: Lost(head + Decimal(n) + suffix) != [] <==> bad
    ensures LostEach(head, ns, suffix) != [] <==> ns != [] && bad
  {
    if ns != [] {
      EachLost(head, ns[1..], suffix, bad);
    }
  }

  lemma {:induction false} LostBehind(p: string, t: string)
    requires '[' !in p
    ensures Lost(p + t) != [] <==> BadGroup(t).Some?
    decreases Opens(t)
  {
    CutBehind(p, t);
    if '[' in t && CutText(t).Some? {
      var q := CutText(t).value;
      CutShrinks(t);
      NoOpenBefore(t);
      var bad := BadGroup(q.suffix).Some?;
      forall n: nat ensures Lost(p + q.prefix + Decimal(n) + q.suffix) != [] <==> bad {
        LostBehind(p + q.prefix + Decimal(n), q.suffix);
      }
      EachLost(p + q.prefix, ReadGroup(q.body, q.close).ns, q.suffix, bad);
      GoodGroupChooses(q.body, q.close);
    }
  }

  /** What becomes of a group that does not read, for every text: hosts are given up exactly
      when there is one, it is reported exactly when it is the first group, so hosts are
      given up in silence exactly when a group that reads stands before it. */
  lemma WhatIsLost(text: string)
    ensures Lost(text) == [] <==> BadGroup(text).None?
    ensures !ExpandText(text).ok <==> BadGroup(text) == Some(0)
    ensures ExpandText(text).ok && Lost(text) != [] <==> BadGroup(text).Some? && BadGroup(text).value > 0
  {
    LostBehind("", text);
    assert "" + text == text;
  }

  lemma {:induction false} ProductNonEmpty(text: string)
    requires BadGroup(text).None?
    ensures Product(text) != []
    decreases Opens(text)
  {
    if '[' in text {
      var q := CutText(text).value;
      CutShrinks(text);
      ProductNonEmpty(q.suffix);
      GoodGroupChooses(q.body, q.close);
    }
  }

  // A group that reads, and whatever stands behind it.
  lemma BehindPrinted(text: string, head: string, rs: seq<Range>, suffix: string)
    requires '[' !in head && rs != [] && forall i :: 0 <= i < |rs| ==> GoodRange(rs[i])
    requires text == head + ("[" + (PrintRanges(rs) + suffix))
    ensures BadGroup(text) == OneFurther(BadGroup(suffix))
    ensures Product(text) == Prefixed(head, Cross(Chosen(rs), Product(suffix)))
  {
    var q := PrintedParts(text, head, rs, suffix);
    ByParts(text, q, Chosen(rs));
  }

  lemma PrintedParts(text: string, head: string, rs: seq<Range>, suffix: string) returns (q: Parts)
    requires '[' !in head && rs != [] && forall i :: 0 <= i < |rs| ==> GoodRange(rs[i])
    requires text == head + ("[" + (PrintRanges(rs) + suffix))
    ensures '[' in text && CutText(text) == Some(q) && q.prefix == head && q.suffix == suffix
    ensures ReadGroup(q.body, q.close) == Numbers(Chosen(rs), true)
  {
    assert text[|head|] == '[';
    CutPrinted(head, rs, suffix);
    ReadPrintedRanges(rs, suffix);
    q := CutText(text).value;
  }

  lemma ByParts(text: string, q: Parts, ns: seq<nat>)
    requires '[' in text && CutText(text) == Some(q) && ReadGroup(q.body, q.close) == Numbers(ns, true)
    ensures BadGroup(text) == OneFurther(BadGroup(q.suffix))
    ensures Product(text) == Prefixed(q.prefix, Cross(ns, Product(q.suffix)))
  {
  }

  /** Every group of a printed host reads. */
  lemma {:induction false} PrintedReads(h: Host)
    requires GoodHost(h)
    ensures BadGroup(Print(h)).None?
    decreases |h.tail|
  {
    if h.tail == [] {
      assert '[' !in h.head && Print(h) == h.head;
    } else {
      var g, rest := h.tail[0], h.tail[1..];
      assert GoodGroup(g) && '[' !in h.head;
      PrintedReads(Host(g.after, rest));
      PrintedTail(h);
      BehindPrinted(Print(h), h.head, g.ranges, g.after + PrintTail(rest));
    }
  }

  // ------------------------------------------------------------------------------ lists

  // The pieces between the commas outside brackets, an unbalanced last one included.
  function AllPieces(cur: string, s: string, depth: int): (ps: seq<string>)
    ensures ps != []
    decreases |s|
  {
    if s == "" then [cur]
    else
      var d := Depth(s[0], depth);
      if d == 0 && s[0] == ',' then [cur] + AllPieces("", s[1..], 0)
      else AllPieces(cur + [s[0]], s[1..], d)
  }

  // Opening brackets less closing ones.
  function FinalDepth(s: string, depth: int): int
  {
    if s == "" then depth else FinalDepth(s[1..], Depth(s[0], depth))
  }

  function Joined(ps: seq<string>): string
    requires ps != []
  {
    if |ps| == 1 then ps[0] else ps[0] + "," + Joined(ps[1..])
  }

  lemma {:induction false} PiecesAreTheList(cur: string, s: string, depth: int)
    ensures Joined(AllPieces(cur, s, depth)) == cur + s
    decreases |s|
  {
    if s != "" {
      var d := Depth(s[0], depth);
      if d == 0 && s[0] == ',' {
        PiecesAreTheList("", s[1..], 0);
        assert ([cur] + AllPieces("", s[1..], 0))[1..] == AllPieces("", s[1..], 0);
        assert s == "," + ("" + s[1..]);
      } else {
        PiecesAreTheList(cur + [s[0]], s[1..], d);
        assert cur + [s[0]] + s[1..] == cur + s;
      }
    }
  }

  function Closes(s: string): nat
  {
    if s == "" then 0 else (if s[0] == ']' then 1 else 0) + Closes(s[1..])
  }

  lemma {:induction false} DepthCounts(s: string, depth: int)
    ensures FinalDepth(s, depth) == depth + Opens(s) - Closes(s)
    decreases |s|
  {
    if s != "" {
      DepthCounts(s[1..], Depth(s[0], depth));
    }
  }

  lemma {:induction false} DepthSnoc(s: string, c: char, depth: int)
    ensures FinalDepth(s + [c], depth) == Depth(c, FinalDepth(s, depth))
    decreases |s|
  {
    if s == "" {
      assert "" + [c] == [c] && [c][1..] == "";
      assert FinalDepth([c], depth) == FinalDepth("", Depth(c, depth));
    } else {
      assert (s + [c])[1..] == s[1..] + [c];
      DepthSnoc(s[1..], c, Depth(s[0], depth));
    }
  }

  // As many closing brackets as opening ones.
  predicate Even(s: string)
  {
    Opens(s) == Closes(s)
  }

  // No comma of the text has an even text before it.
  predicate CommasInside(s: string)
  {
    forall j :: 0 <= j < |s| && s[j] == ',' ==> !Even(s[..j])
  }

  lemma CommasSnoc(s: string, c: char)
    requires CommasInside(s) && (c == ',' ==> !Even(s))
    ensures CommasInside(s + [c])
  {
    forall j | 0 <= j < |s + [c]| && (s + [c])[j] == ','
      ensures !Even((s + [c])[..j])
    {
      assert (s + [c])[..j] == s[..j];
      assert j == |s| ==> s[..j] == s;
    }
  }

  // No piece has a comma with as many closing as opening brackets before it, and every piece
  // but the last has as many of both.
  predicate WellCut(ps: seq<string>)
    decreases |ps|
  {
    ps == [] || (CommasInside(ps[0]) && (|ps| > 1 ==> Even(ps[0])) && WellCut(ps[1..]))
  }

  lemma {:induction false} PiecesWellCut(cur: string, s: string, depth: int)
    requires depth == FinalDepth(cur, 0) && CommasInside(cur)
    ensures WellCut(AllPieces(cur, s, depth))
    decreases |s|
  {
    if s == "" {
      assert [cur][1..] == [];
    } else {
      var d := Depth(s[0], depth);
      DepthCounts(cur, 0);
      if d == 0 && s[0] == ',' {
        PiecesWellCut("", s[1..], 0);
        assert ([cur] + AllPieces("", s[1..], 0))[1..] == AllPieces("", s[1..], 0);
      } else {
        DepthSnoc(cur, s[0], 0);
        CommasSnoc(cur, s[0]);
        PiecesWellCut(cur + [s[0]], s[1..], d);
      }
    }
  }

  // A piece ends at the first comma of the text with an even text before it.
  lemma EndsBefore(q: string, s: string, k: nat)
    requires CommasInside(q) && |q| <= |s| && q == s[..|q|]
    requires k < |s| && s[k] == ',' && Even(s[..k])
    ensures |q| <= k
  {
    Prefixes(q, s);
  }

  lemma Prefixes<T>(q: seq<T>, s: seq<T>)
    requires |q| <= |s| && q == s[..|q|]
    ensures forall j :: 0 <= j <= |q| ==> q[..j] == s[..j]
  {
  }

  // Two ways to cut the same text have the same first piece.
  lemma NotShorter(ps: seq<string>, qs: seq<string>)
    requires ps != [] && qs != [] && WellCut(ps) && WellCut(qs) && Joined(ps) == Joined(qs)
    ensures |ps[0]| >= |qs[0]|
  {
    StartsWith(ps);
    StartsWith(qs);
    if |ps| > 1 {
      EndsBefore(qs[0], Joined(ps), |ps[0]|);
    }
  }

  lemma StartsWith(ps: seq<string>)
    requires ps != []
    ensures |ps[0]| <= |Joined(ps)| && Joined(ps)[..|ps[0]|] == ps[0]
    ensures |ps| == 1 ==> Joined(ps) == ps[0]
    ensures |ps| > 1 ==> |ps[0]| < |Joined(ps)| && Joined(ps)[|ps[0]|] == ',' && Joined(ps)[|ps[0]| + 1..] == Joined(ps[1..])
  {
  }

  lemma {:induction false} OneWayToCut(ps: seq<string>, qs: seq<string>)
    requires ps != [] && qs != [] && WellCut(ps) && WellCut(qs) && Joined(ps) == Joined(qs)
    ensures ps == qs
  {
    NotShorter(ps, qs);
    NotShorter(qs, ps);
    StartsWith(ps);
    StartsWith(qs);
    assert ps[0] == qs[0];
    if |ps| > 1 {
      OneWayToCut(ps[1..], qs[1..]);
      assert ps == [ps[0]] + ps[1..] && qs == [qs[0]] + qs[1..];
    }
  }

  /** The pieces of a list, by counting brackets: they are the one way to cut it at commas such
      that every piece but the last has as many closing as opening brackets, and no piece has
      a comma behind as many of both. */
  lemma PiecesByCounting(s: string, ps: seq<string>)
    requires ps != []
    ensures ps == AllPieces("", s, 0) <==> WellCut(ps) && Joined(ps) == s
  {
    PiecesWellCut("", s, 0);
    PiecesAreTheList("", s, 0);
    assert "" + s == s;
    if WellCut(ps) && Joined(ps) == s {
      OneWayToCut(ps, AllPieces("", s, 0));
    }
  }

  function AllButLast<T>(ps: seq<T>): seq<T>
    requires ps != []
  {
    ps[..|ps| - 1]
  }

  // The last piece is looked at exactly when the brackets of the list balance.
  lemma {:induction false} LastPiece(cur: string, s: string, depth: int)
    ensures Pieces(cur, s, depth) ==
      if FinalDepth(s, depth) == 0 then AllPieces(cur, s, depth) else AllButLast(AllPieces(cur, s, depth))
    decreases |s|
  {
    if s != "" {
      var d := Depth(s[0], depth);
      if d == 0 && s[0] == ',' {
        LastPiece("", s[1..], 0);
      } else {
        LastPiece(cur + [s[0]], s[1..], d);
      }
    }
  }

  function Products(ps: seq<string>): seq<string>
  {
    if ps == [] then [] else Product(ps[0]) + Products(ps[1..])
  }

  function LostOf(ps: seq<string>): seq<string>
  {
    if ps == [] then [] else Lost(ps[0]) + LostOf(ps[1..])
  }

  // The texts given up in a list: what its pieces lose, and a last piece not looked at.
  function ListLost(s: string): seq<string>
  {
    var all := AllPieces("", s, 0);
    LostOf(Pieces("", s, 0)) + if FinalDepth(s, 0) == 0 then [] else [all[|all| - 1]]
  }

  predicate Accepted(ps: seq<string>)
  {
    forall i :: 0 <= i < |ps| ==> BadGroup(ps[i]) != Some(0)
  }

  predicate AllRead(ps: seq<string>)
  {
    forall i :: 0 <= i < |ps| ==> BadGroup(ps[i]).None?
  }

  lemma {:induction false} PiecesExpand(ps: seq<string>)
    ensures ExpandPieces(ps).ok <==> Accepted(ps)
    ensures Accepted(ps) ==> ExpandPieces(ps).hosts == Products(ps)
  {
    if ps != [] {
      PiecesExpand(ps[1..]);
      WhatIsLost(ps[0]);
      ExpandsToProduct(ps[0]);
      assert Accepted(ps) <==> BadGroup(ps[0]) != Some(0) && Accepted(ps[1..]) by {
        assert forall i :: 0 < i < |ps| ==> ps[i] == ps[1..][i - 1];
      }
    }
  }

  lemma {:induction false} PiecesLose(ps: seq<string>)
    ensures LostOf(ps) == [] <==> AllRead(ps)
  {
    if ps != [] {
      PiecesLose(ps[1..]);
      WhatIsLost(ps[0]);
      assert AllRead(ps) <==> BadGroup(ps[0]).None? && AllRead(ps[1..]) by {
        assert forall i :: 0 < i < |ps| ==> ps[i] == ps[1..][i - 1];
      }
    }
  }

  /** When the parser keeps quiet about a fault. It returns nothing exactly when the first
      group of a piece does not read or no host is left. Nothing of the list is given up
      exactly when the brackets balance and every group reads, and then all hosts are
      returned. So hosts go missing in silence exactly when the brackets do not balance, or
      a group behind another one does not read, while some other host is found. */
  lemma SilentLoss(s: string)
    ensures var ps := Pieces("", s, 0);
      && (ParseList(s).None? <==> !Accepted(ps) || Products(ps) == [])
      && (ParseList(s).Some? ==> ParseList(s).value == Products(ps))
      && (ParseList(s).Some? && ListLost(s) != [] <==>
            Accepted(ps) && Products(ps) != [] && (FinalDepth(s, 0) != 0 || !AllRead(ps)))
    ensures ListLost(s) == [] <==> FinalDepth(s, 0) == 0 && AllRead(AllPieces("", s, 0))
    ensures ListLost(s) == [] ==> ParseList(s) == Some(Products(AllPieces("", s, 0)))
  {
    var ps := Pieces("", s, 0);
    PiecesExpand(ps);
    PiecesLose(ps);
    LastPiece("", s, 0);
    if ListLost(s) == [] {
      ProductNonEmpty(ps[0]);
    }
  }

  // ------------------------------------------------------------------- the two faults

  lemma BadLetter()
    ensures BadGroup("b[x]") == Some(0) && Product("b[x]") == []
  {
    assert "b" + ("[" + "x]") == "b[x]" && "b[x]"[1] == '[';
    CutAt("b", "x]");
  }

  lemma BadSecond()
    ensures BadGroup("a[1]b[x]") == Some(1) && Product("a[1]b[x]") == []
  {
    var r := Range("1", None);
    assert "1"[..0] == "" && Value("1") == 1 && GoodRange(r);
    assert "a" + ("[" + (PrintRanges([r]) + "b[x]")) == "a[1]b[x]";
    BehindPrinted("a[1]b[x]", "a", [r], "b[x]");
    BadLetter();
    CrossNothing(Chosen([r]));
  }

  lemma {:induction false} CrossNothing(ns: seq<nat>)
    ensures Cross(ns, []) == []
  {
    if ns != [] {
      CrossNothing(ns[1..]);
    }
  }

  lemma BalancedOne(c: char, s: string, depth: int, after: int)
    requires Depth(c, depth) >= 0 && (c == ',' ==> depth != 0) && Balanced(s, Depth(c, depth), after)
    ensures Balanced([c] + s, depth, after)
  {
    assert ([c] + s)[1..] == s;
  }

  lemma SecondPiece()
    ensures Balanced("a[1]b[x]", 0, 0)
  {
    assert Balanced("", 0, 0);
    BalancedOne(']', "", 1, 0);
    BalancedOne('x', "]", 1, 0);
    BalancedOne('[', "x]", 0, 0);
    BalancedOne('b', "[x]", 0, 0);
    BalancedOne(']', "b[x]", 1, 0);
    BalancedOne('1', "]b[x]", 1, 0);
    BalancedOne('[', "1]b[x]", 0, 0);
    BalancedOne('a', "[1]b[x]", 0, 0);
  }

  // Two balanced pieces.
  lemma TwoPieces(p: string, q: string)
    requires Balanced(p, 0, 0) && Balanced(q, 0, 0)
    ensures Pieces("", p + ("," + q), 0) == [p, q]
  {
    PiecesThrough("", p, "," + q, 0, 0);
    assert ("," + q)[1..] == q && "" + p == p && "" + q == q;
    PiecesThrough("", q, "", 0, 0);
    assert q + "" == q;
  }

  /** Hosts missing without a word: the second group of the second host does not read. */
  lemma LaterGroupDropsHosts()
    ensures ParseList("c,a[1]b[x]") == Some(["c"]) && ExpandText("a[1]b[x]") == Expansion([], true)
  {
    assert "c" + ("," + "a[1]b[x]") == "c,a[1]b[x]";
    SecondPiece();
    PlainBalanced("c");
    TwoPieces("c", "a[1]b[x]");
    BadSecond();
    WhatIsLost("a[1]b[x]");
    ExpandsToProduct("a[1]b[x]");
    SilentLoss("c,a[1]b[x]");
    assert Products(["c", "a[1]b[x]"]) == ["c"] by {
      assert ["c", "a[1]b[x]"][1..] == ["a[1]b[x]"] && ["a[1]b[x]"][1..] == [];
      assert Products(["a[1]b[x]"]) == [] + Products([]);
    }
  }

  /** The bracket of the second host is not closed, and that host is not looked at. */
  lemma UnclosedDropsLast()
    ensures ParseList("a,b[1") == Some(["a"]) && FinalDepth("a,b[1", 0) == 1
  {
    var s := "a,b[1";
    assert s[1..] == ",b[1" && ",b[1"[1..] == "b[1" && "b[1"[1..] == "[1" && "[1"[1..] == "1" && "1"[1..] == "";
    assert FinalDepth("1", 1) == 1 && FinalDepth("[1", 0) == 1 && FinalDepth("b[1", 0) == 1;
    assert FinalDepth(",b[1", 0) == 1;
    assert Pieces("b[1", "", 1) == [] && Pieces("b[", "1", 1) == [] && Pieces("b", "[1", 0) == [];
    assert Pieces("", "b[1", 0) == [];
    assert Pieces("a", ",b[1", 0) == ["a"] && "" + [s[0]] == "a";
    assert Pieces("", s, 0) == ["a"];
    assert ["a"][1..] == [] && Product("a") == ["a"] && BadGroup("a") == None;
    assert Products(["a"]) == ["a"] + Products([]);
    SilentLoss(s);
  }
}
