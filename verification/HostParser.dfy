/** The host-list parser as it runs: cursors over the text, a growing array of hosts with a
    null after the last one, and a call to itself for every further bracket group. */
module HostParser {
  import opened Collections
  import opened Numerals
  import opened HostList

  // host_list_t
  class HostArray {
    var hosts: array?<Option<string>>
    var size: nat
    var cur: nat

    ghost var contents: seq<string>

    ghost predicate Valid()
      reads this, hosts
    {
      && |contents| == cur
      && (hosts == null ==> cur == 0)
      && (hosts != null ==>
            && hosts.Length == size && 0 < cur < size && hosts[cur] == None
            && forall i :: 0 <= i < cur ==> hosts[i] == Some(contents[i]))
    }

    constructor (numHosts: nat)
      ensures Valid() && contents == [] && hosts == null && size == numHosts
    {
      hosts, size, cur, contents := null, numHosts, 0, [];
    }

    /** addHost: there is always room for the new host and for the null after it. */
    method AddHost(host: string)
      requires Valid()
      modifies this, hosts
      ensures Valid() && hosts != null && (hosts == old(hosts) || fresh(hosts))
      ensures contents == old(contents) + [host]
    {
      var a: array<Option<string>>;
      if hosts == null {
        size := if size == 0 then 8 else size + 1;
        a := new Option<string>[size](_ => None);
        cur := 0;
      } else {
        a := hosts;
      }
      if cur + 2 >= size {
        var b := new Option<string>[2 * size](_ => None);
        forall i | 0 <= i < size { b[i] := a[i]; }
        a, size := b, 2 * size;
      }
      hosts := a;
      hosts[cur] := Some(host);
      cur := cur + 1;
      hosts[cur] := None;
      contents := contents + [host];
    }
  }

  /** expandNumberRange, on the text from the cursor on. */
  method ExpandNumberRange(s: string) returns (r: Option<Read>)
    ensures r == ReadRange(s)
  {
    var pos := SkipDigits(s, 0);
    assert s[0..] == s;
    if pos == 0 || pos == |s| {
      return None;
    }
    if s[pos] == ',' || s[pos] == ']' {
      return Bounds(Runs(pos + 1, s[..pos], s[..pos]));
    } else if s[pos] == '-' {
      var end := SkipDigits(s, pos + 1);
      assert s[pos + 1..][..end - (pos + 1)] == s[pos + 1..end];
      if end == pos + 1 {
        return None;
      }
      return Bounds(Runs(end + 1, s[..pos], s[pos + 1..end]));
    }
    return None;
  }

  method SkipDigits(text: string, start: nat) returns (pos: nat)
    requires start <= |text|
    ensures start <= pos <= |text| && pos - start == DigitRun(text[start..])
  {
    pos := start;
    while pos < |text| && IsDigit(text[pos])
      invariant start <= pos <= |text|
      invariant DigitRun(text[start..]) == pos - start + DigitRun(text[pos..])
    {
      assert text[pos..][1..] == text[pos + 1..];
      pos := pos + 1;
    }
  }

  /** The buffer for a host is sized with the printed length of the number, which is one too
      few for 0, and with one too many for the suffix; nothing is ever cut off. */
  method FormatHost(prefix: string, i: nat, suffix: string) returns (host: string)
    ensures host == prefix + Decimal(i) + suffix
  {
    var numberLen := CharLengthOfNumber(i);
    var suffixLen := |suffix| + 1;
    var room := |prefix| + numberLen + suffixLen + 1;
    var full := prefix + Decimal(i) + suffix;
    assert i == 0 ==> |Decimal(i)| == 1;
    host := Snprintf(full, room);
  }

  // What snprintf leaves in a buffer with some room, the terminator included.
  function Snprintf(full: string, room: nat): string
    requires room > 0
  {
    if |full| < room then full else full[..room - 1]
  }

  lemma {:induction false} EachJoin(prefix: string, a: seq<nat>, b: seq<nat>, suffix: string)
    ensures ExpandEach(prefix, a + b, suffix) == ExpandEach(prefix, a, suffix) + ExpandEach(prefix, b, suffix)
    decreases |a|
  {
    if a == [] {
      assert a + b == b;
    } else {
      assert (a + b)[1..] == a[1..] + b;
      EachJoin(prefix, a[1..], b, suffix);
    }
  }

  method StrChr(text: string, from: nat, c: char) returns (pos: nat)
    requires from <= |text|
    ensures pos == from + IndexOf(text[from..], c) && pos <= |text|
  {
    pos := from;
    while pos < |text| && text[pos] != c
      invariant from <= pos <= |text|
      invariant from + IndexOf(text[from..], c) == pos + IndexOf(text[pos..], c)
    {
      assert text[pos..][1..] == text[pos + 1..];
      pos := pos + 1;
    }
  }

  // One host per number of a range.
  method ExpandNumbers(prefix: string, lo: nat, hi: nat, suffix: string, list: HostArray)
    requires list.Valid()
    modifies list, list.hosts
    ensures list.Valid() && (list.hosts == old(list.hosts) || fresh(list.hosts))
    ensures list.contents == old(list.contents) + ExpandEach(prefix, UpTo(lo, hi), suffix)
    decreases Opens(prefix) + Opens(suffix), 2
  {
    var i := lo;
    while i <= hi
      invariant list.Valid() && (list.hosts == old(list.hosts) || fresh(list.hosts))
      invariant list.contents + ExpandEach(prefix, UpTo(i, hi), suffix) ==
                old(list.contents) + ExpandEach(prefix, UpTo(lo, hi), suffix)
      decreases hi + 1 - i
    {
      ghost var before := list.contents;
      var host := FormatHost(prefix, i, suffix);
      HostOpens(prefix, i, suffix);
      AddOrExpand(host, list);
      EachStep(prefix, i, hi, suffix, before);
      i := i + 1;
    }
  }

  // A host with a bracket left in it is expanded further; how that ends is not looked at.
  method AddOrExpand(host: string, list: HostArray)
    requires list.Valid()
    modifies list, list.hosts
    ensures list.Valid() && (list.hosts == old(list.hosts) || fresh(list.hosts))
    ensures list.contents == old(list.contents) + ExpandText(host).hosts
    decreases Opens(host), 1
  {
    if '[' in host {
      var ok := ExpandOneShortHost(host, list);
    } else {
      list.AddHost(host);
    }
  }

  lemma EachStep(prefix: string, i: nat, hi: nat, suffix: string, before: seq<string>)
    requires i <= hi
    ensures before + ExpandEach(prefix, UpTo(i, hi), suffix) ==
      before + ExpandText(prefix + Decimal(i) + suffix).hosts + ExpandEach(prefix, UpTo(i + 1, hi), suffix)
  {
    assert UpTo(i, hi)[1..] == UpTo(i + 1, hi);
    Regroup(before, ExpandText(prefix + Decimal(i) + suffix).hosts, ExpandEach(prefix, UpTo(i + 1, hi), suffix));
  }

  /** expandOneShortHost: the hosts of the first group, further groups by recursion; it
      reports failure for the first group only. */
  method ExpandOneShortHost(text: string, list: HostArray) returns (ok: bool)
    requires list.Valid()
    modifies list, list.hosts
    ensures list.Valid() && (list.hosts == old(list.hosts) || fresh(list.hosts))
    ensures ok == ExpandText(text).ok
    ensures list.contents == old(list.contents) + ExpandText(text).hosts
    decreases Opens(text), 0
  {
    if '[' !in text {
      list.AddHost(text);
      return true;
    }
    var parts := Cut(text);
    if parts.None? {
      return false;
    }
    CutShrinks(text);
    ok := ExpandGroup(parts.value.prefix, parts.value.body, parts.value.close, parts.value.suffix, list);
  }

  // Finding the two brackets and copying out the text around them.
  method Cut(text: string) returns (parts: Option<Parts>)
    ensures parts == CutText(text)
  {
    var open := StrChr(text, 0, '[');
    assert text[0..] == text;
    if open == |text| {
      return None;
    }
    var close := StrChr(text, open + 1, ']');
    if close == |text| {
      return None;
    }
    return Some(Parts(text[..open], text[open + 1..], close - (open + 1), text[close + 1..]));
  }

  // The hosts for the ranges read from s up to the bracket c characters away.
  ghost function GroupHosts(prefix: string, s: string, c: nat, suffix: string): seq<string>
  {
    ExpandEach(prefix, ReadGroup(s, c).ns, suffix)
  }

  // The ranges between the brackets, one after the other.
  method ExpandGroup(prefix: string, body: string, close: nat, suffix: string, list: HostArray) returns (ok: bool)
    requires list.Valid() && close < |body|
    modifies list, list.hosts
    ensures list.Valid() && (list.hosts == old(list.hosts) || fresh(list.hosts))
    ensures ok == ReadGroup(body, close).ok
    ensures list.contents == old(list.contents) + GroupHosts(prefix, body, close, suffix)
    decreases Opens(prefix) + Opens(suffix), 3
  {
    ghost var goal := list.contents + GroupHosts(prefix, body, close, suffix);
    var s, c: nat := body, close;
    while true
      invariant c < |s| && list.Valid() && (list.hosts == old(list.hosts) || fresh(list.hosts))
      invariant ReadGroup(s, c).ok == ReadGroup(body, close).ok
      invariant list.contents + GroupHosts(prefix, s, c, suffix) == goal
      decreases |s|
    {
      var r := ExpandNumberRange(s);
      if r.None? {
        return false;
      }
      GroupStep(s, c, prefix, suffix, list.contents, r.value);
      ExpandNumbers(prefix, r.value.lo, r.value.hi, suffix, list);
      if r.value.used >= c {
        return true;
      }
      s, c := s[r.value.used..], c - r.value.used;
    }
  }

  // One range, and the rest of the group if there is any.
  lemma GroupStep(s: string, c: nat, prefix: string, suffix: string, before: seq<string>, r: Read)
    requires c < |s| && ReadRange(s) == Some(r)
    ensures
      var all := before + GroupHosts(prefix, s, c, suffix);
      var here := before + ExpandEach(prefix, UpTo(r.lo, r.hi), suffix);
      if r.used < c then
        all == here + GroupHosts(prefix, s[r.used..], c - r.used, suffix) &&
        ReadGroup(s, c).ok == ReadGroup(s[r.used..], c - r.used).ok
      else all == here && ReadGroup(s, c).ok
  {
    if r.used < c {
      var here, more := UpTo(r.lo, r.hi), ReadGroup(s[r.used..], c - r.used).ns;
      EachJoin(prefix, here, more, suffix);
      Regroup(before, ExpandEach(prefix, here, suffix), ExpandEach(prefix, more, suffix));
    }
  }

  // What remains to be added for the pieces not yet expanded.
  ghost predicate StillToDo(goal: Expansion, done: seq<string>, ps: seq<string>)
  {
    var more := ExpandPieces(ps);
    goal.ok == more.ok && (more.ok ==> goal.hosts == done + more.hosts)
  }

  lemma PieceDone(goal: Expansion, done: seq<string>, piece: string, ps: seq<string>)
    requires StillToDo(goal, done, [piece] + ps)
    ensures var e := ExpandText(piece);
      if e.ok then StillToDo(goal, done + e.hosts, ps) else !goal.ok
  {
    assert ([piece] + ps)[1..] == ps;
    Regroup(done, ExpandText(piece).hosts, ExpandPieces(ps).hosts);
  }

  // A null-terminated array of these hosts.
  ghost predicate Holds(a: array<Option<string>>, xs: seq<string>)
    reads a
  {
    |xs| < a.Length && a[|xs|] == None && forall i :: 0 <= i < |xs| ==> a[i] == Some(xs[i])
  }

  // One character of the scan for commas.
  lemma NextChar(s: string, start: nat, pos: nat, depth: int)
    requires start <= pos < |s|
    ensures var d := Depth(s[pos], depth);
      Pieces(s[start..pos], s[pos..], depth) ==
        if d == 0 && s[pos] == ',' then [s[start..pos]] + Pieces(s[pos + 1..pos + 1], s[pos + 1..], 0)
        else Pieces(s[start..pos + 1], s[pos + 1..], d)
  {
    assert s[pos..][1..] == s[pos + 1..];
    assert s[start..pos] + [s[pos]] == s[start..pos + 1];
    assert s[pos + 1..pos + 1] == "";
  }

  lemma AtEnd(s: string, start: nat, depth: int)
    requires start <= |s|
    ensures Pieces(s[start..|s|], s[|s|..], depth) == if depth == 0 then [s[start..|s|]] + [] else []
  {
  }

  lemma AtStart(s: string)
    ensures Pieces(s[0..0], s[0..], 0) == Pieces("", s, 0)
  {
    assert s[0..0] == "" && s[0..] == s;
  }

  /** getHostsParse: the null-terminated hosts of a list, or null. */
  method GetHostsParse(numHosts: nat, shortlist: string) returns (result: array?<Option<string>>)
    ensures result == null <==> ParseList(shortlist) == None
    ensures result != null ==> Holds(result, ParseList(shortlist).value)
  {
    var list := new HostArray(numHosts);
    var ok := ParseInto(shortlist, list);
    result := if ok then list.hosts else null;
  }

  // The scan: a piece is expanded at each comma outside brackets, and at the end.
  method ParseInto(shortlist: string, list: HostArray) returns (ok: bool)
    requires list.Valid() && list.contents == []
    modifies list, list.hosts
    ensures list.Valid() && (list.hosts == old(list.hosts) || fresh(list.hosts))
    ensures var goal := ExpandPieces(Pieces("", shortlist, 0));
      ok == goal.ok && (ok ==> list.contents == goal.hosts)
  {
    var inBracket, start: nat, pos: nat := 0, 0, 0;
    ghost var goal := ExpandPieces(Pieces("", shortlist, 0));
    ghost var todo := Pieces(shortlist[0..0], shortlist[0..], 0);
    AtStart(shortlist);
    while pos < |shortlist|
      invariant start <= pos <= |shortlist|
      invariant list.Valid() && (list.hosts == old(list.hosts) || fresh(list.hosts))
      invariant todo == Pieces(shortlist[start..pos], shortlist[pos..], inBracket)
      invariant StillToDo(goal, list.contents, todo)
    {
      NextChar(shortlist, start, pos, inBracket);
      if shortlist[pos] == '[' {
        inBracket := inBracket + 1;
      }
      if shortlist[pos] == ']' {
        inBracket := inBracket - 1;
      }
      if inBracket == 0 && shortlist[pos] == ',' {
        todo := Pieces(shortlist[pos + 1..pos + 1], shortlist[pos + 1..], 0);
        ok := TakePiece(goal, todo, shortlist[start..pos], list);
        if !ok {
          return;
        }
        start := pos + 1;
      }
      pos := pos + 1;
    }
    AtEnd(shortlist, start, inBracket);
    ok := true;
    if inBracket == 0 {
      ok := TakePiece(goal, [], shortlist[start..pos], list);
    }
  }

  method TakePiece(ghost goal: Expansion, ghost more: seq<string>, piece: string, list: HostArray) returns (ok: bool)
    requires list.Valid() && StillToDo(goal, list.contents, [piece] + more)
    modifies list, list.hosts
    ensures list.Valid() && (list.hosts == old(list.hosts) || fresh(list.hosts))
    ensures if ok then StillToDo(goal, list.contents, more) else !goal.ok
  {
    PieceDone(goal, list.contents, piece, more);
    ok := ExpandOneShortHost(piece, list);
  }
}
