/** Slurm host lists: the bracketed short form, its expansion as an ordered cross product,
    and the parser that expands the first bracket group textually and calls itself on
    every host that still has one. */
module HostList {
  import opened Collections
  import opened Numerals

  // ---------------------------------------------------------------------- numbers

  /** charLengthOfNumber: the printed length, except that it is 0 for 0. */
  method CharLengthOfNumber(num: nat) returns (len: nat)
    ensures len == if num == 0 then 0 else |Decimal(num)|
  {
    var i := num;
    len := 0;
    while i != 0
      invariant i == 0 ==> len == if num == 0 then 0 else |Decimal(num)|
      invariant i != 0 ==> len + |Decimal(i)| == |Decimal(num)|
    {
      i := i / 10;
      len := len + 1;
    }
  }

  // ------------------------------------------------------------ the syntax of a list

  // digits or digits-digits
  datatype Range = Range(first: string, second: Option<string>)

  function Low(r: Range): nat
    requires Digits(r.first)
  {
    Value(r.first)
  }

  function High(r: Range): nat
    requires GoodDigits(r)
  {
    if r.second.None? then Value(r.first) else Value(r.second.value)
  }

  predicate GoodDigits(r: Range)
  {
    r.first != "" && Digits(r.first) && (r.second.Some? ==> r.second.value != "" && Digits(r.second.value))
  }

  predicate GoodRange(r: Range)
  {
    GoodDigits(r) && Low(r) <= High(r)
  }

  // A bracket group and the plain text after it.
  datatype Group = Group(ranges: seq<Range>, after: string)

  // Plain text, then bracket groups.
  datatype Host = Host(head: string, tail: seq<Group>)

  predicate Plain(s: string)
  {
    forall i :: 0 <= i < |s| ==> s[i] != '[' && s[i] != ']' && s[i] != ','
  }

  predicate GoodGroup(g: Group)
  {
    g.ranges != [] && Plain(g.after) && forall i :: 0 <= i < |g.ranges| ==> GoodRange(g.ranges[i])
  }

  predicate GoodHost(h: Host)
  {
    Plain(h.head) && forall i :: 0 <= i < |h.tail| ==> GoodGroup(h.tail[i])
  }

  function PrintRange(r: Range): string
  {
    if r.second.None? then r.first else r.first + "-" + r.second.value
  }

  function PrintRanges(rs: seq<Range>): string
    requires rs != []
  {
    if |rs| == 1 then PrintRange(rs[0]) + "]" else PrintRange(rs[0]) + "," + PrintRanges(rs[1..])
  }

  function PrintTail(tail: seq<Group>): string
    requires forall i :: 0 <= i < |tail| ==> GoodGroup(tail[i])
  {
    if tail == [] then ""
    else
      assert GoodGroup(tail[0]);
      "[" + PrintRanges(tail[0].ranges) + tail[0].after + PrintTail(tail[1..])
  }

  function Print(h: Host): string
    requires GoodHost(h)
  {
    h.head + PrintTail(h.tail)
  }

  // ------------------------------------------------------------- the cross product

  function UpTo(lo: nat, hi: nat): seq<nat>
    decreases hi + 1 - lo
  {
    if lo > hi then [] else [lo] + UpTo(lo + 1, hi)
  }

  function Chosen(rs: seq<Range>): seq<nat>
    requires forall i :: 0 <= i < |rs| ==> GoodRange(rs[i])
  {
    if rs == [] then []
    else
      assert GoodRange(rs[0]);
      UpTo(Low(rs[0]), High(rs[0])) + Chosen(rs[1..])
  }

  // prefix in front of every string of a list
  function Prefixed(prefix: string, xs: seq<string>): (r: seq<string>)
    ensures |r| == |xs| && forall i :: 0 <= i < |xs| ==> r[i] == prefix + xs[i]
  {
    seq(|xs|, i requires 0 <= i < |xs| => prefix + xs[i])
  }

  // Every number of the list, in order, before every string of the list.
  function Cross(ns: seq<nat>, xs: seq<string>): seq<string>
  {
    if ns == [] then [] else Prefixed(Decimal(ns[0]), xs) + Cross(ns[1..], xs)
  }

  /** The ordered cross product with every number printed afresh, at whatever width it
      needs: the leftmost group varies slowest. */
  function ReprintedTail(tail: seq<Group>): seq<string>
    requires forall i :: 0 <= i < |tail| ==> GoodGroup(tail[i])
  {
    if tail == [] then [""]
    else
      assert GoodGroup(tail[0]);
      Cross(Chosen(tail[0].ranges), Prefixed(tail[0].after, ReprintedTail(tail[1..])))
  }

  function Reprinted(h: Host): seq<string>
    requires GoodHost(h)
  {
    Prefixed(h.head, ReprintedTail(h.tail))
  }

  // ---------------------------------------------------------------- what the code does

  // The length of the leading run of digits.
  function DigitRun(s: string): (k: nat)
    ensures k <= |s| && Digits(s[..k]) && (k < |s| ==> !IsDigit(s[k]))
  {
    if s == "" || !IsDigit(s[0]) then 0
    else
      var k := 1 + DigitRun(s[1..]);
      assert s[..k] == [s[0]] + s[1..][..k - 1];
      k
  }

  // What expandNumberRange reads: how much it consumes, and the two numbers.
  datatype Read = Read(used: nat, lo: nat, hi: nat)

  // The two runs of digits it finds, the same one twice if there is no dash.
  datatype Runs = Runs(used: nat, first: string, second: string)

  function FindRuns(s: string): Option<Runs>
  {
    var k := DigitRun(s);
    if k == 0 || k == |s| then None
    else if s[k] == ',' || s[k] == ']' then Some(Runs(k + 1, s[..k], s[..k]))
    else if s[k] == '-' then
      var t := s[k + 1..];
      var m := DigitRun(t);
      if m == 0 then None else Some(Runs(k + 1 + m + 1, s[..k], t[..m]))
    else None
  }

  function ReadRange(s: string): (r: Option<Read>)
    ensures r.Some? ==> r.value.used > 0
  {
    var f := FindRuns(s);
    if f.None? then None else Bounds(f.value)
  }

  function Bounds(f: Runs): Option<Read>
  {
    if Value(f.second) < Value(f.first) then None else Some(Read(f.used, Value(f.first), Value(f.second)))
  }

  datatype Numbers = Numbers(ns: seq<nat>, ok: bool)

  // The ranges read from inside a bracket, whose end is c characters away.
  function ReadGroup(s: string, c: nat): Numbers
    decreases |s|
  {
    var r := ReadRange(s);
    if r.None? then Numbers([], false)
    else
      var here := UpTo(r.value.lo, r.value.hi);
      if r.value.used < c && r.value.used <= |s| then
        var more := ReadGroup(s[r.value.used..], c - r.value.used);
        Numbers(here + more.ns, more.ok)
      else Numbers(here, true)
  }

  // strchr, with the length for "not found"
  function IndexOf(s: string, c: char): (k: nat)
    ensures k <= |s| && c !in s[..k] && (k < |s| ==> s[k] == c)
  {
    if s == "" || s[0] == c then 0
    else
      var k := 1 + IndexOf(s[1..], c);
      assert s[..k] == [s[0]] + s[1..][..k - 1];
      k
  }

  function Opens(s: string): nat
  {
    if s == "" then 0 else (if s[0] == '[' then 1 else 0) + Opens(s[1..])
  }

  lemma {:induction false} OpensJoin(a: string, b: string)
    ensures Opens(a + b) == Opens(a) + Opens(b)
  {
    if a == "" {
      assert a + b == b;
    } else {
      assert (a + b)[1..] == a[1..] + b;
      OpensJoin(a[1..], b);
    }
  }

  lemma {:induction false} NoOpens(s: string)
    requires '[' !in s
    ensures Opens(s) == 0
  {
    if s != "" {
      assert s[0] in s;
      NoOpens(s[1..]);
    }
  }

  lemma FewerOpens(s: string, o: nat, c: nat)
    requires o < c < |s| && s[o] == '['
    ensures Opens(s[..o]) + Opens(s[c + 1..]) < Opens(s)
  {
    assert s == s[..o] + s[o..] && s[o..] == s[o..c + 1] + s[c + 1..];
    OpensJoin(s[..o], s[o..]);
    OpensJoin(s[o..c + 1], s[c + 1..]);
  }

  lemma HostOpens(prefix: string, n: nat, suffix: string)
    ensures Opens(prefix + Decimal(n) + suffix) == Opens(prefix) + Opens(suffix)
  {
    OpensJoin(prefix + Decimal(n), suffix);
    OpensJoin(prefix, Decimal(n));
    NoOpens(Decimal(n));
  }

  // The hosts added and whether the expansion of the first group was accepted.
  datatype Expansion = Expansion(hosts: seq<string>, ok: bool)

  // A text cut at its first group: before the bracket, from behind it on with the
  // distance of the closing one, and behind that.
  datatype Parts = Parts(prefix: string, body: string, close: nat, suffix: string)

  function CutText(text: string): Option<Parts>
  {
    var o := IndexOf(text, '[');
    if o == |text| then None
    else
      var c := IndexOf(text[o + 1..], ']');
      if o + 1 + c == |text| then None
      else Some(Parts(text[..o], text[o + 1..], c, text[o + 1 + c + 1..]))
  }

  lemma CutShrinks(text: string)
    ensures var p := CutText(text);
      p.Some? ==> Opens(p.value.prefix) + Opens(p.value.suffix) < Opens(text)
  {
    var o := IndexOf(text, '[');
    if o < |text| {
      var c := o + 1 + IndexOf(text[o + 1..], ']');
      if c < |text| {
        FewerOpens(text, o, c);
      }
    }
  }

  /** expandOneShortHost: the count of opening brackets drops at every call. */
  function ExpandText(text: string): Expansion
    decreases Opens(text), 0, 0
  {
    if '[' !in text then Expansion([text], true)
    else
      var p := CutText(text);
      CutShrinks(text);
      if p.None? then Expansion([], false)
      else
        var g := ReadGroup(p.value.body, p.value.close);
        Expansion(ExpandEach(p.value.prefix, g.ns, p.value.suffix), g.ok)
  }

  function ExpandEach(prefix: string, ns: seq<nat>, suffix: string): seq<string>
    decreases Opens(prefix) + Opens(suffix), 1, |ns|
  {
    if ns == [] then []
    else
      HostOpens(prefix, ns[0], suffix);
      ExpandText(prefix + Decimal(ns[0]) + suffix).hosts + ExpandEach(prefix, ns[1..], suffix)
  }

  // ------------------------------------------------- the expansion of a printed host

  lemma {:induction false} DigitRunStops(d: string, x: string)
    requires Digits(d) && (x == "" || !IsDigit(x[0]))
    ensures DigitRun(d + x) == |d| && (d + x)[..|d|] == d && (d + x)[|d|..] == x
  {
    if d == "" {
      assert d + x == x;
    } else {
      assert (d + x)[1..] == d[1..] + x;
      DigitRunStops(d[1..], x);
    }
  }

  lemma FindSingle(d: string, y: string)
    requires d != "" && Digits(d) && y != "" && (y[0] == ',' || y[0] == ']')
    ensures FindRuns(d + y) == Some(Runs(|d| + 1, d, d))
  {
    DigitRunStops(d, y);
  }

  lemma FindDashed(d: string, e: string, y: string)
    requires d != "" && Digits(d) && e != "" && Digits(e) && y != "" && !IsDigit(y[0])
    ensures FindRuns(d + ("-" + (e + y))) == Some(Runs(|d| + 1 + |e| + 1, d, e))
  {
    DigitRunStops(e, y);
    DashAfter(d, e + y);
  }

  lemma DashAfter(d: string, t: string)
    requires Digits(d)
    ensures var s := d + ("-" + t); DigitRun(s) == |d| && s[..|d|] == d && s[|d|] == '-' && s[|d| + 1..] == t
  {
    DigitRunStops(d, "-" + t);
    DropPast(d, '-', t);
  }

  lemma DropPast<T>(a: seq<T>, c: T, t: seq<T>)
    ensures (a + ([c] + t))[|a| + 1..] == t
  {
  }

  lemma FindPrinted(r: Range, sep: char, x: string)
    requires GoodDigits(r) && (sep == ',' || sep == ']')
    ensures FindRuns(PrintRange(r) + ([sep] + x)) ==
      Some(Runs(|PrintRange(r)| + 1, r.first, if r.second.None? then r.first else r.second.value))
  {
    if r.second.None? {
      FindSingle(r.first, [sep] + x);
    } else {
      FindPrintedDash(r.first, r.second.value, [sep] + x);
    }
  }

  lemma FindPrintedDash(d: string, e: string, y: string)
    requires d != "" && Digits(d) && e != "" && Digits(e) && y != "" && !IsDigit(y[0])
    ensures FindRuns(d + "-" + e + y) == Some(Runs(|d| + 1 + |e| + 1, d, e))
  {
    FindDashed(d, e, y);
    Regroup(d + "-", e, y);
    Regroup(d, "-", e + y);
  }

  lemma ReadPrintedRange(r: Range, sep: char, x: string)
    requires GoodRange(r) && (sep == ',' || sep == ']')
    ensures ReadRange(PrintRange(r) + ([sep] + x)) == Some(Read(|PrintRange(r)| + 1, Low(r), High(r)))
  {
    FindPrinted(r, sep, x);
  }

  lemma ReadGroupStep(p: string, sep: char, t: string, c: nat, lo: nat, hi: nat)
    requires ReadRange(p + ([sep] + t)) == Some(Read(|p| + 1, lo, hi))
    ensures ReadGroup(p + ([sep] + t), c) ==
      if |p| + 1 < c then
        var more := ReadGroup(t, c - (|p| + 1));
        Numbers(UpTo(lo, hi) + more.ns, more.ok)
      else Numbers(UpTo(lo, hi), true)
  {
    DropPast(p, sep, t);
  }

  lemma ReadLastRange(r: Range, x: string)
    requires GoodRange(r)
    ensures ReadGroup(PrintRange(r) + "]" + x, |PrintRange(r)|) == Numbers(UpTo(Low(r), High(r)), true)
  {
    Regroup(PrintRange(r), "]", x);
    ReadPrintedRange(r, ']', x);
    ReadGroupStep(PrintRange(r), ']', x, |PrintRange(r)|, Low(r), High(r));
  }

  lemma ReadOneOfMany(r: Range, q: string, x: string)
    requires GoodRange(r) && |q| > 1
    ensures var more := ReadGroup(q + x, |q| - 1);
      ReadGroup(PrintRange(r) + "," + q + x, |PrintRange(r)| + |q|) ==
        Numbers(UpTo(Low(r), High(r)) + more.ns, more.ok)
  {
    var p := PrintRange(r);
    Regroup(p + ",", q, x);
    Regroup(p, ",", q + x);
    ReadPrintedRange(r, ',', q + x);
    ReadGroupStep(p, ',', q + x, |p| + |q|, Low(r), High(r));
  }

  lemma {:induction false} ReadPrintedRanges(rs: seq<Range>, x: string)
    requires rs != [] && forall i :: 0 <= i < |rs| ==> GoodRange(rs[i])
    ensures ReadGroup(PrintRanges(rs) + x, |PrintRanges(rs)| - 1) == Numbers(Chosen(rs), true)
  {
    if |rs| == 1 {
      ReadPrintedLast(rs, x);
    } else {
      ReadPrintedRanges(rs[1..], x);
      ReadPrintedMore(rs, x);
    }
  }

  lemma ReadPrintedLast(rs: seq<Range>, x: string)
    requires |rs| == 1 && GoodRange(rs[0])
    ensures forall i :: 0 <= i < |rs| ==> GoodRange(rs[i])
    ensures ReadGroup(PrintRanges(rs) + x, |PrintRanges(rs)| - 1) == Numbers(Chosen(rs), true)
  {
    ReadLastRange(rs[0], x);
    assert Chosen(rs[1..]) == [];
  }

  lemma ReadPrintedMore(rs: seq<Range>, x: string)
    requires |rs| > 1 && forall i :: 0 <= i < |rs| ==> GoodRange(rs[i])
    requires ReadGroup(PrintRanges(rs[1..]) + x, |PrintRanges(rs[1..])| - 1) == Numbers(Chosen(rs[1..]), true)
    ensures ReadGroup(PrintRanges(rs) + x, |PrintRanges(rs)| - 1) == Numbers(Chosen(rs), true)
  {
    assert GoodRange(rs[0]);
    NonEmptyRanges(rs[1..]);
    ReadOneOfMany(rs[0], PrintRanges(rs[1..]), x);
  }

  lemma NonEmptyRanges(rs: seq<Range>)
    requires rs != [] && forall i :: 0 <= i < |rs| ==> GoodRange(rs[i])
    ensures |PrintRanges(rs)| > 1
  {
    assert GoodRange(rs[0]);
  }

  lemma RangeHasNoBracket(r: Range)
    requires GoodDigits(r)
    ensures ']' !in PrintRange(r) && '[' !in PrintRange(r)
  {
  }

  lemma IndexAfter(a: string, c: char, b: string)
    requires c !in a
    ensures IndexOf(a + ([c] + b), c) == |a|
  {
    IndexSkips(a, c, [c] + b);
  }

  // The bracket of a group closes at the end of its ranges.
  lemma {:induction false} CloseAt(rs: seq<Range>, x: string)
    requires rs != [] && forall i :: 0 <= i < |rs| ==> GoodRange(rs[i])
    ensures IndexOf(PrintRanges(rs) + x, ']') == |PrintRanges(rs)| - 1
  {
    var r := rs[0];
    assert GoodRange(r);
    RangeHasNoBracket(r);
    if |rs| == 1 {
      Regroup(PrintRange(r), "]", x);
      IndexAfter(PrintRange(r), ']', x);
    } else {
      CloseAt(rs[1..], x);
      Regroup(PrintRange(r) + ",", PrintRanges(rs[1..]), x);
      IndexSkips(PrintRange(r) + ",", ']', PrintRanges(rs[1..]) + x);
    }
  }

  lemma {:induction false} IndexSkips(a: string, c: char, t: string)
    requires c !in a
    ensures IndexOf(a + t, c) == |a| + IndexOf(t, c)
  {
    if a == "" {
      assert a + t == t;
    } else {
      assert (a + t)[1..] == a[1..] + t && a[0] in a;
      IndexSkips(a[1..], c, t);
    }
  }

  // The text of a host with a group, taken apart as the parser does.
  lemma CutPrinted(head: string, rs: seq<Range>, suffix: string)
    requires '[' !in head && rs != [] && forall i :: 0 <= i < |rs| ==> GoodRange(rs[i])
    ensures CutText(head + ("[" + (PrintRanges(rs) + suffix))) ==
      Some(Parts(head, PrintRanges(rs) + suffix, |PrintRanges(rs)| - 1, suffix))
  {
    NonEmptyRanges(rs);
    CloseAt(rs, suffix);
    CutAt(head, PrintRanges(rs) + suffix);
    DropFirst(PrintRanges(rs), suffix);
  }

  lemma DropFirst<T>(a: seq<T>, b: seq<T>)
    ensures (a + b)[|a|..] == b
  {
  }

  lemma CutAt(head: string, body: string)
    requires '[' !in head && IndexOf(body, ']') < |body|
    ensures var c := IndexOf(body, ']');
      CutText(head + ("[" + body)) == Some(Parts(head, body, c, body[c + 1..]))
  {
    IndexAfter(head, '[', body);
    Slices(head, '[', body, IndexOf(body, ']'));
    CutIs(head + ("[" + body), head, body);
  }

  lemma CutIs(text: string, prefix: string, body: string)
    requires |text| == |prefix| + 1 + |body| && IndexOf(text, '[') == |prefix|
    requires text[..|prefix|] == prefix && text[|prefix| + 1..] == body && IndexOf(body, ']') < |body|
    ensures CutText(text) == Some(Parts(prefix, body, IndexOf(body, ']'), text[|prefix| + 1 + IndexOf(body, ']') + 1..]))
  {
  }

  lemma Slices<T>(a: seq<T>, x: T, b: seq<T>, c: nat)
    requires c < |b|
    ensures var t := a + ([x] + b);
      t[..|a|] == a && t[|a| + 1..] == b && t[|a| + 1 + c + 1..] == b[c + 1..]
  {
  }

  lemma PrefixedTwice(a: string, b: string, xs: seq<string>)
    ensures Prefixed(a, Prefixed(b, xs)) == Prefixed(a + b, xs)
  {
    forall i | 0 <= i < |xs|
      ensures Prefixed(a, Prefixed(b, xs))[i] == Prefixed(a + b, xs)[i]
    {
      Regroup(a, b, xs[i]);
    }
  }

  lemma PrefixedJoin(a: string, xs: seq<string>, ys: seq<string>)
    ensures Prefixed(a, xs + ys) == Prefixed(a, xs) + Prefixed(a, ys)
  {
  }

  // Expanding every number of the first group, given that each resulting host expands.
  lemma {:induction false} EachExpands(head: string, ns: seq<nat>, after: string, suffix: string, xs: seq<string>)
    requires forall n: nat :: ExpandText(head + Decimal(n) + (after + suffix)).hosts == Prefixed(head + Decimal(n) + after, xs)
    ensures ExpandEach(head, ns, after + suffix) == Prefixed(head, Cross(ns, Prefixed(after, xs)))
  {
    if ns != [] {
      var d := Decimal(ns[0]);
      EachExpands(head, ns[1..], after, suffix, xs);
      PrefixedTwice(head + d, after, xs);
      PrefixedTwice(head, d, Prefixed(after, xs));
      PrefixedJoin(head, Prefixed(d, Prefixed(after, xs)), Cross(ns[1..], Prefixed(after, xs)));
    }
  }

  lemma PlainJoin(a: string, n: nat, b: string)
    requires Plain(a) && Plain(b)
    ensures Plain(a + Decimal(n) + b)
  {
  }

  // The first group of a printed host is read, and the rest is its suffix.
  lemma FirstGroupRead(h: Host)
    requires GoodHost(h) && h.tail != []
    ensures GoodGroup(h.tail[0])
    ensures var g := h.tail[0];
      ExpandText(Print(h)) == Expansion(ExpandEach(h.head, Chosen(g.ranges), g.after + PrintTail(h.tail[1..])), true)
  {
    var g := h.tail[0];
    assert GoodGroup(g) && '[' !in h.head;
    PrintedTail(h);
    GroupRead(h.head, g.ranges, g.after + PrintTail(h.tail[1..]));
  }

  lemma GroupRead(head: string, rs: seq<Range>, suffix: string)
    requires '[' !in head && rs != [] && forall i :: 0 <= i < |rs| ==> GoodRange(rs[i])
    ensures ExpandText(head + ("[" + (PrintRanges(rs) + suffix))) == Expansion(ExpandEach(head, Chosen(rs), suffix), true)
  {
    var text := head + ("[" + (PrintRanges(rs) + suffix));
    assert text[|head|] == '[';
    CutPrinted(head, rs, suffix);
    ReadPrintedRanges(rs, suffix);
  }

  /** A printed host expands, in order, to the cross product of its groups, with its
      numbers printed afresh. */
  lemma {:induction false} PrintedHostExpands(h: Host)
    requires GoodHost(h)
    ensures ExpandText(Print(h)) == Expansion(Reprinted(h), true)
    decreases |h.tail|
  {
    if h.tail == [] {
      PrintedPlain(h);
    } else {
      var g, rest := h.tail[0], h.tail[1..];
      FirstGroupRead(h);
      var suffix := PrintTail(rest);
      forall n: nat
        ensures ExpandText(h.head + Decimal(n) + (g.after + suffix)).hosts ==
                Prefixed(h.head + Decimal(n) + g.after, ReprintedTail(rest))
      {
        PlainJoin(h.head, n, g.after);
        PrintedHostExpands(Host(h.head + Decimal(n) + g.after, rest));
        Regroup(h.head + Decimal(n), g.after, suffix);
      }
      EachExpands(h.head, Chosen(g.ranges), g.after, suffix, ReprintedTail(rest));
    }
  }

  lemma PrintedPlain(h: Host)
    requires GoodHost(h) && h.tail == []
    ensures ExpandText(Print(h)) == Expansion(Reprinted(h), true)
  {
    assert '[' !in h.head && Print(h) == h.head;
    assert h.head + "" == h.head;
  }

  lemma PrintedTail(h: Host)
    requires GoodHost(h) && h.tail != []
    ensures GoodGroup(h.tail[0])
    ensures Print(h) == h.head + ("[" + (PrintRanges(h.tail[0].ranges) + (h.tail[0].after + PrintTail(h.tail[1..]))))
  {
    var g := h.tail[0];
    assert GoodGroup(g);
    var p, suffix := PrintRanges(g.ranges), PrintTail(h.tail[1..]);
    Regroup("[" + p, g.after, suffix);
    Regroup("[", p, g.after + suffix);
  }

  // ------------------------------------------------------------- lists of hosts

  // Cutting at the commas outside brackets; an unbalanced last piece is not looked at.
  function Pieces(cur: string, s: string, depth: int): seq<string>
    decreases |s|
  {
    if s == "" then if depth == 0 then [cur] else []
    else
      var d := Depth(s[0], depth);
      if d == 0 && s[0] == ',' then [cur] + Pieces("", s[1..], 0)
      else Pieces(cur + [s[0]], s[1..], d)
  }

  function Depth(c: char, depth: int): int
  {
    if c == '[' then depth + 1 else if c == ']' then depth - 1 else depth
  }

  // The hosts of all pieces, up to the first that is refused.
  function ExpandPieces(ps: seq<string>): Expansion
  {
    if ps == [] then Expansion([], true)
    else
      var e := ExpandText(ps[0]);
      if !e.ok then Expansion(e.hosts, false)
      else
        var more := ExpandPieces(ps[1..]);
        Expansion(e.hosts + more.hosts, more.ok)
  }

  // getHostsParse: nothing is returned for a refused list or one that yields no host.
  function ParseList(s: string): Option<seq<string>>
  {
    var e := ExpandPieces(Pieces("", s, 0));
    if e.ok && e.hosts != [] then Some(e.hosts) else None
  }

  function PrintList(hs: seq<Host>): string
    requires hs != [] && forall i :: 0 <= i < |hs| ==> GoodHost(hs[i])
  {
    assert GoodHost(hs[0]);
    if |hs| == 1 then Print(hs[0]) else Print(hs[0]) + "," + PrintList(hs[1..])
  }

  function ReprintedList(hs: seq<Host>): seq<string>
    requires forall i :: 0 <= i < |hs| ==> GoodHost(hs[i])
  {
    if hs == [] then []
    else
      assert GoodHost(hs[0]);
      Reprinted(hs[0]) + ReprintedList(hs[1..])
  }

  // The text leaves the depth unchanged and has no comma at depth 0.
  predicate Balanced(s: string, depth: int, after: int)
  {
    if s == "" then depth == after
    else Depth(s[0], depth) >= 0 && (s[0] == ',' ==> depth != 0) && Balanced(s[1..], Depth(s[0], depth), after)
  }

  lemma {:induction false} BalancedJoin(a: string, b: string, d: int, e: int, f: int)
    requires Balanced(a, d, e) && Balanced(b, e, f)
    ensures Balanced(a + b, d, f)
  {
    if a == "" {
      assert a + b == b;
    } else {
      assert (a + b)[1..] == a[1..] + b;
      BalancedJoin(a[1..], b, Depth(a[0], d), e, f);
    }
  }

  lemma {:induction false} PlainBalanced(s: string)
    requires Plain(s)
    ensures Balanced(s, 0, 0)
  {
    if s != "" {
      PlainBalanced(s[1..]);
    }
  }

  lemma {:induction false} InsideBalanced(s: string)
    requires forall i :: 0 <= i < |s| ==> s[i] != '[' && s[i] != ']'
    ensures Balanced(s, 1, 1)
  {
    if s != "" {
      InsideBalanced(s[1..]);
    }
  }

  lemma {:induction false} RangesBalanced(rs: seq<Range>)
    requires rs != [] && forall i :: 0 <= i < |rs| ==> GoodRange(rs[i])
    ensures Balanced(PrintRanges(rs), 1, 0)
  {
    assert GoodRange(rs[0]);
    var p := PrintRange(rs[0]);
    if |rs| == 1 {
      InsideBalanced(p);
      assert "]"[1..] == "" && Balanced("]", 1, 0);
      BalancedJoin(p, "]", 1, 1, 0);
    } else {
      InsideBalanced(p + ",");
      RangesBalanced(rs[1..]);
      BalancedJoin(p + ",", PrintRanges(rs[1..]), 1, 1, 0);
    }
  }

  lemma {:induction false} TailBalanced(tail: seq<Group>)
    requires forall i :: 0 <= i < |tail| ==> GoodGroup(tail[i])
    ensures Balanced(PrintTail(tail), 0, 0)
  {
    if tail != [] {
      var g := tail[0];
      assert GoodGroup(g);
      RangesBalanced(g.ranges);
      assert "["[1..] == "" && Balanced("[", 0, 1);
      BalancedJoin("[", PrintRanges(g.ranges), 0, 1, 0);
      PlainBalanced(g.after);
      BalancedJoin("[" + PrintRanges(g.ranges), g.after, 0, 0, 0);
      TailBalanced(tail[1..]);
      BalancedJoin("[" + PrintRanges(g.ranges) + g.after, PrintTail(tail[1..]), 0, 0, 0);
    }
  }

  lemma {:induction false} PiecesThrough(cur: string, a: string, b: string, d: int, e: int)
    requires Balanced(a, d, e)
    ensures Pieces(cur, a + b, d) == Pieces(cur + a, b, e)
    decreases |a|
  {
    if a == "" {
      assert a + b == b && cur + a == cur;
    } else {
      assert (a + b)[1..] == a[1..] + b;
      PiecesThrough(cur + [a[0]], a[1..], b, Depth(a[0], d), e);
      assert cur + [a[0]] + a[1..] == cur + a;
    }
  }

  lemma PieceOf(h: Host, b: string)
    requires GoodHost(h)
    ensures Pieces("", Print(h) + b, 0) == Pieces(Print(h), b, 0)
  {
    PlainBalanced(h.head);
    TailBalanced(h.tail);
    BalancedJoin(h.head, PrintTail(h.tail), 0, 0, 0);
    PiecesThrough("", Print(h), b, 0, 0);
    assert "" + Print(h) == Print(h);
  }

  lemma {:induction false} ListPieces(hs: seq<Host>)
    requires hs != [] && forall i :: 0 <= i < |hs| ==> GoodHost(hs[i])
    ensures ExpandPieces(Pieces("", PrintList(hs), 0)) == Expansion(ReprintedList(hs), true)
  {
    assert GoodHost(hs[0]);
    PrintedHostExpands(hs[0]);
    var p := Print(hs[0]);
    if |hs| == 1 {
      PieceOf(hs[0], "");
      assert p + "" == p;
      assert ExpandPieces([p][1..]) == Expansion([], true);
      assert ReprintedList(hs[1..]) == [];
    } else {
      var rest := PrintList(hs[1..]);
      ListPieces(hs[1..]);
      Regroup(p, ",", rest);
      PieceOf(hs[0], "," + rest);
      assert ("," + rest)[1..] == rest;
      assert Pieces(p, "," + rest, 0) == [p] + Pieces("", rest, 0);
      assert ([p] + Pieces("", rest, 0))[1..] == Pieces("", rest, 0);
    }
  }

  lemma {:induction false} ReprintedNonEmpty(tail: seq<Group>)
    requires forall i :: 0 <= i < |tail| ==> GoodGroup(tail[i])
    ensures ReprintedTail(tail) != []
  {
    if tail != [] {
      var g := tail[0];
      assert GoodGroup(g) && GoodRange(g.ranges[0]);
      ReprintedNonEmpty(tail[1..]);
      assert Chosen(g.ranges) != [];
    }
  }

  /** A well-formed list parses to the hosts of its parts, one after the other, with their
      numbers printed afresh. */
  lemma ListExpands(hs: seq<Host>)
    requires hs != [] && forall i :: 0 <= i < |hs| ==> GoodHost(hs[i])
    ensures ParseList(PrintList(hs)) == Some(ReprintedList(hs))
  {
    ListPieces(hs);
    assert GoodHost(hs[0]);
    ReprintedNonEmpty(hs[0].tail);
  }
}
