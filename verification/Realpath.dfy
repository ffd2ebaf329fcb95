/** spindle_realpath: symbolic links are expanded in text buffers, with directories checked
    late and only where a look ahead at the remaining text says so.  It is proved to agree
    with resolution component by component. */
module Realpath {
  import opened Collections
  import opened Pathname

  const PATH_MAX := 4096

  datatype Result = Resolved(text: string) | Error(errno: Errno, partial: Option<string>)

  // ------------------------------------------------------------- splicing a link

  // Continuations that resolve alike from every directory and link count.
  ghost predicate Equivalent(root: Node, r1: Path, r2: Path)
  {
    forall d: Path, l: nat :: Walk(root, d, r1, l) == Walk(root, d, r2, l)
  }

  lemma {:induction false} WalkCongruence(root: Node, dir: Path, x: Path, r1: Path, r2: Path, links: nat)
    requires Equivalent(root, r1, r2)
    ensures Walk(root, dir, x + r1, links) == Walk(root, dir, x + r2, links)
    decreases MAX_LINKS - links, |x|
  {
    if x == [] {
      assert x + r1 == r1 && x + r2 == r2;
    } else if IsDir(root, dir) {
      var c, y := x[0], x[1..];
      assert (x + r1)[1..] == y + r1 && (x + r2)[1..] == y + r2;
      if c == "." {
        WalkCongruence(root, dir, y, r1, r2, links);
      } else if c == ".." {
        WalkCongruence(root, Parent(dir), y, r1, r2, links);
      } else {
        var n := Get(root, dir + [c]);
        if n.Some? && n.value.Link? {
          if links < MAX_LINKS {
            var t := n.value.target;
            Regroup(Components(t), y, r1);
            Regroup(Components(t), y, r2);
            WalkCongruence(root, if Absolute(t) then [] else dir, Components(t) + y, r1, r2, links + 1);
          }
        } else if n.Some? {
          WalkCongruence(root, dir + [c], y, r1, r2, links);
        }
      }
    }
  }

  // A "." before more components changes nothing.
  lemma DotBefore(root: Node, r: Path)
    requires r != []
    ensures Equivalent(root, ["."] + r, r)
  {
    forall d: Path, l: nat
      ensures Walk(root, d, ["."] + r, l) == Walk(root, d, r, l)
    {
      assert (["."] + r)[1..] == r;
    }
  }

  lemma {:induction false} SkipSpliced(t: string, e: string)
    requires e == "" || e[0] == '/'
    ensures SkipSlashes(t + e) == if SkipSlashes(t) == "" then SkipSlashes(e) else SkipSlashes(t) + e
  {
    if t == "" {
      assert t + e == e;
    } else if t[0] == '/' {
      assert (t + e)[1..] == t[1..] + e;
      SkipSpliced(t[1..], e);
    }
  }

  /** Text spliced in front of the remaining text resolves like the components of both. */
  lemma {:induction false} Spliced(root: Node, t: string, e: string)
    requires e == "" || e[0] == '/'
    ensures Equivalent(root, Components(t + e), Components(t) + Components(e))
    decreases |t|
  {
    if t == "" {
      assert t + e == e && [] + Components(e) == Components(e);
    } else if t[0] == '/' {
      SkipSpliced(t, e);
      if SkipSlashes(t) == "" {
        SplicedSlashes(root, t, e);
      } else {
        Spliced(root, SkipSlashes(t), e);
      }
    } else {
      SplicedName(root, t, e);
    }
  }

  lemma SplicedSlashes(root: Node, t: string, e: string)
    requires t != "" && t[0] == '/' && SkipSlashes(t) == "" && (e == "" || e[0] == '/')
    ensures Equivalent(root, Components(t + e), Components(t) + Components(e))
  {
    SkipSpliced(t, e);
    if e == "" {
      assert t + e == t && Components(t) + [] == Components(t);
    } else {
      assert Components(t + e) == Components(e);
      DotBefore(root, Components(e));
    }
  }

  lemma {:induction false} SplicedName(root: Node, t: string, e: string)
    requires t != "" && t[0] != '/' && (e == "" || e[0] == '/')
    ensures Equivalent(root, Components(t + e), Components(t) + Components(e))
    decreases |t|, 0
  {
    var c, u := t[..NameLen(t)], t[NameLen(t)..];
    Spliced(root, u, e);
    assert t == c + u;
    Regroup(c, u, e);
    ComponentsName(c, u);
    ComponentsName(c, u + e);
    var r1, r2 := Components(u + e), Components(u) + Components(e);
    forall d: Path, l: nat
      ensures Walk(root, d, Components(t + e), l) == Walk(root, d, Components(t) + Components(e), l)
    {
      WalkCongruence(root, d, [c], r1, r2, l);
      Regroup([c], Components(u), Components(e));
    }
  }

  // ------------------------------------------------------------ looking ahead

  // Nothing that follows would notice a component that is not a directory: the next
  // component other than "." is "..", or there is none after at least one ".".
  predicate DirDemanded(comps: Path)
  {
    comps != [] && (if comps[0] == "." then comps[1..] == [] || DirDemanded(comps[1..]) else comps[0] == "..")
  }

  lemma LookAhead(s: string)
    requires s != "" && s[0] == '/'
    ensures var t := SkipSlashes(s);
      if t == "" then DirDemanded(Components(s))
      else if t[0] != '.' then !DirDemanded(Components(s))
      else
        var r := t[1..];
        if r == "" || (r[0] == '.' && (|r| == 1 || r[1] == '/')) then DirDemanded(Components(s))
        else if r[0] == '/' then DirDemanded(Components(s)) == DirDemanded(Components(r))
        else !DirDemanded(Components(s))
  {
    var t := SkipSlashes(s);
    if t != "" {
      var k := NameLen(t);
      assert Components(s) == [t[..k]] + Components(t[k..]);
      assert t[..k][0] == t[0];
      if t[0] == '.' {
        var r := t[1..];
        assert NameLen(t) == 1 + NameLen(r);
        if r == "" || r[0] == '/' {
          assert t[..k] == "." && t[k..] == r;
          assert Components(s)[1..] == Components(r);
        } else if r[0] == '.' {
          assert NameLen(r) == 1 + NameLen(r[1..]);
          assert k == 2 ==> t[..k] == "..";
          assert k > 2 ==> |t[..k]| > 2;
        } else {
          assert t[..k][1] == r[0];
        }
      }
    }
  }

  /** suffix_requires_dir_check: a scan of the text, which finds exactly when nothing later
      would notice that the last component is not a directory. */
  method SuffixRequiresDirCheck(end: string) returns (check: bool)
    requires end == "" || end[0] == '/'
    ensures check <==> DirDemanded(Components(end))
  {
    var s := end;
    while s != "" && s[0] == '/'
      invariant s == "" || s[0] == '/' ==> DirDemanded(Components(end)) == DirDemanded(Components(s))
      invariant s != "" && s[0] != '/' ==> !DirDemanded(Components(end))
      decreases |s|
    {
      LookAhead(s);
      var t := s;
      while t != "" && t[0] == '/'
        invariant SkipSlashes(t) == SkipSlashes(s) && |t| <= |s|
        invariant t != "" && t[0] != '/' ==> |t| < |s|
        decreases |t|
      {
        t := t[1..];
      }
      if t == "" {
        return true;
      }
      if t[0] != '.' {
        return false;
      }
      var r := t[1..];
      if r == "" || (r[0] == '.' && (|r| == 1 || r[1] == '/')) {
        return true;
      }
      s := r;
    }
    return false;
  }

  // ------------------------------------------------------------ the result buffer

  // dest is the text of path, perhaps with a trailing slash.
  predicate Represents(dest: string, path: Path)
  {
    dest == Slashed(path) + "/" || (path != [] && dest == Slashed(path))
  }

  // Backing up over the last component, up to and including the slash before it.
  method BackUp(dest: string) returns (d: string)
    ensures BackedUp(dest, d)
  {
    d := dest;
    if |dest| > 1 {
      d := d[..|d| - 1];
      while |d| > 0 && d[|d| - 1] != '/'
        invariant d <= dest && |d| < |dest| && '/' !in dest[|d|..|dest| - 1]
      {
        d := d[..|d| - 1];
      }
    }
  }

  predicate BackedUp(dest: string, d: string)
  {
    if |dest| <= 1 then d == dest
    else d <= dest && |d| < |dest| && (d == "" || d[|d| - 1] == '/') && '/' !in dest[|d|..|dest| - 1]
  }

  lemma BackUpIsParent(dest: string, path: Path, d: string)
    requires Represents(dest, path) && BackedUp(dest, d)
    requires forall i :: 0 <= i < |path| ==> path[i] != "" && '/' !in path[i]
    ensures Represents(d, Parent(path)) && d == Slashed(Parent(path)) + "/"
  {
    if path != [] {
      var p, c := Parent(path), path[|path| - 1];
      assert path == p + [c];
      SlashedAppend(p, c);
      LastSlash(Slashed(p), c, dest, d);
    }
  }

  // A slash below j lies before any stretch up to j that has none.
  lemma SlashBefore(s: string, i: nat, j: nat, q: nat)
    requires i <= j <= |s| && '/' !in s[i..j] && q < j && s[q] == '/'
    ensures q < i
  {
    forall k | i <= k < j
      ensures s[k] in s[i..j]
    {
      assert s[i..j][k - i] == s[k];
    }
  }

  lemma LastSlash(a: string, c: string, dest: string, d: string)
    requires c != "" && '/' !in c && (dest == a + "/" + c || dest == a + "/" + c + "/")
    requires BackedUp(dest, d)
    ensures d == a + "/"
  {
    var q := |a|;
    assert dest[q] == '/';
    assert forall i :: q < i <= q + |c| ==> dest[i] == c[i - q - 1] && c[i - q - 1] in c;
    SlashBefore(dest, |d|, |dest| - 1, q);
    assert |d| == q + 1;
    assert dest[..q + 1] == a + "/";
  }

  // ------------------------------------------------------------- one system call

  lemma ReadLinkAt(root: Node, path: Path, c: string)
    requires Canonical(root, path) && SimpleName(c)
    ensures ReadLink(root, Slashed(path + [c])) ==
      if !IsDir(root, path) then NoLink(ENOTDIR)
      else if Get(root, path + [c]).None? then NoLink(ENOENT)
      else if Get(root, path + [c]).value.Link? then Target(Get(root, path + [c]).value.target)
      else NoLink(EINVAL)
  {
    var full := path + [c];
    ComponentsSlashed(full, "");
    assert Slashed(full) + "" == Slashed(full) && full + [] == full;
    assert full[..|full| - 1] == path && full[|full| - 1] == c;
    WalkDown(root, path, [], 0);
    assert path + [] == path;
  }

  lemma StatAt(root: Node, path: Path, c: string)
    requires Canonical(root, path) && SimpleName(c)
    ensures Stat(root, Slashed(path + [c]) + "/") == Walk(root, path, [c, "."], 0)
  {
    ComponentsSlashed(path + [c], "/");
    assert SkipSlashes("/"[1..]) == "";
    assert path + [c] + ["."] == path + [c, "."];
    WalkDown(root, path, [c, "."], 0);
  }

  // ------------------------------------------------------------------- the loop

  /** What holds each time round: dest is a canonical path from which the remaining text
      resolves to the outcome sought, and a dest that is not a directory will be noticed
      by the next component that is looked up. */
  ghost predicate OnTrack(root: Node, dest: string, path: Path, rest: string, links: nat, goal: Outcome)
  {
    && root.Dir? && links <= MAX_LINKS
    && Represents(dest, path) && Canonical(root, path)
    && Walk(root, path, Components(rest), links) == goal
    && (IsDir(root, path) || ((rest == "" || rest[0] == '/') && !DirDemanded(Components(rest))))
  }

  // The next component and the text after it.
  ghost predicate NextIs(rest: string, c: string, end: string)
  {
    && c != "" && '/' !in c && (end == "" || end[0] == '/')
    && Components(rest) == [c] + Components(end) && |end| < |rest|
  }

  lemma OnlySlashes(root: Node, dest: string, path: Path, rest: string, links: nat, goal: Outcome)
    requires OnTrack(root, dest, path, rest, links, goal) && (rest == "" || SkipSlashes(rest) == "")
    ensures goal == Found(path)
  {
    if rest != "" {
      assert rest[0] == '/';
      assert Components(rest) == ["."];
      assert ["."][1..] == [];
    }
  }

  lemma DotStep(root: Node, dest: string, path: Path, rest: string, links: nat, goal: Outcome, end: string)
    requires OnTrack(root, dest, path, rest, links, goal) && NextIs(rest, ".", end)
    ensures OnTrack(root, dest, path, end, links, goal)
  {
    assert Components(rest)[1..] == Components(end);
  }

  lemma DotDotStep(root: Node, dest: string, path: Path, rest: string, links: nat, goal: Outcome, end: string, d: string)
    requires OnTrack(root, dest, path, rest, links, goal) && NextIs(rest, "..", end) && BackedUp(dest, d)
    ensures OnTrack(root, d, Parent(path), end, links, goal)
  {
    assert Components(rest)[1..] == Components(end);
    ParentCanonical(root, path);
    BackUpIsParent(dest, path, d);
  }

  // The outcome, when the next component is a name.
  lemma NameStep(root: Node, path: Path, rest: string, links: nat, c: string, end: string)
    requires NextIs(rest, c, end) && c != "." && c != ".." && IsDir(root, path)
    ensures Walk(root, path, Components(rest), links) ==
      var n := Get(root, path + [c]);
      if n.None? then Missing(path + [c])
      else if n.value.Link? then
        if links >= MAX_LINKS then Failed(ELOOP)
        else Walk(root, if Absolute(n.value.target) then [] else path, Components(n.value.target) + Components(end), links + 1)
      else Walk(root, path + [c], Components(end), links)
  {
    assert Components(rest)[1..] == Components(end);
  }

  lemma LinkStep(root: Node, dest: string, path: Path, rest: string, links: nat, goal: Outcome,
                 c: string, end: string, target: string, d: string)
    requires OnTrack(root, dest, path, rest, links, goal) && NextIs(rest, c, end) && SimpleName(c)
    requires ReadLink(root, Slashed(path + [c])) == Target(target)
    requires d == if Absolute(target) then "/" else Slashed(path) + "/"
    ensures links >= MAX_LINKS ==> goal == Failed(ELOOP)
    ensures links < MAX_LINKS ==> OnTrack(root, d, if Absolute(target) then [] else path, target + end, links + 1, goal)
  {
    ReadLinkAt(root, path, c);
    NameStep(root, path, rest, links, c, end);
    Spliced(root, target, end);
    assert Slashed([]) + "/" == "/";
  }

  // readlink failed and the look ahead asked for no check.
  lemma UncheckedStep(root: Node, dest: string, path: Path, rest: string, links: nat, goal: Outcome,
                      c: string, end: string, e: Errno)
    requires OnTrack(root, dest, path, rest, links, goal) && NextIs(rest, c, end) && SimpleName(c)
    requires ReadLink(root, Slashed(path + [c])) == NoLink(e) && !DirDemanded(Components(end))
    ensures if e == EINVAL then OnTrack(root, Slashed(path + [c]), path + [c], end, links, goal)
            else goal == if e == ENOENT then Missing(path + [c]) else Failed(e)
  {
    ReadLinkAt(root, path, c);
    if IsDir(root, path) {
      NameStep(root, path, rest, links, c, end);
    }
  }

  // readlink failed and the look ahead asked for dir_check.
  lemma CheckedStep(root: Node, dest: string, path: Path, rest: string, links: nat, goal: Outcome,
                    c: string, end: string, e: Errno)
    requires OnTrack(root, dest, path, rest, links, goal) && NextIs(rest, c, end) && SimpleName(c)
    requires ReadLink(root, Slashed(path + [c])) == NoLink(e) && DirDemanded(Components(end))
    ensures var o := Stat(root, Slashed(path + [c]) + "/");
      if o.Found? then OnTrack(root, Slashed(path + [c]), path + [c], end, links, goal)
      else goal == if ErrnoOf(o) == ENOENT then Missing(path + [c]) else Failed(ErrnoOf(o))
  {
    ReadLinkAt(root, path, c);
    StatAt(root, path, c);
    assert [c, "."][1..] == ["."] && ["."][1..] == [];
    if IsDir(root, path) {
      NameStep(root, path, rest, links, c, end);
    }
  }

  // ------------------------------------------------------------ the extra buffer

  // scratch_buffer_grow_preserve: twice the room, the same contents.
  method GrowPreserve(a: array<char>) returns (b: array<char>)
    ensures fresh(b) && b.Length == 2 * a.Length && b[..a.Length] == a[..]
  {
    b := new char[2 * a.Length](i requires 0 <= i < 2 * a.Length reads a => if i < a.Length then a[i] else '\0');
  }

  // The text at an offset of the buffer, up to its terminator.
  predicate HoldsAt(a: seq<char>, at: nat, text: string)
  {
    at + |text| < |a| && a[at..at + |text|] == text && a[at + |text|] == '\0'
  }

  method EnsureRoom(extra: array<char>, inExtra: bool, at: nat, end: string, room: nat) returns (buf: array<char>)
    requires extra.Length > 0 && (inExtra ==> HoldsAt(extra[..], at, end))
    ensures buf == extra || fresh(buf)
    ensures buf.Length > room && (inExtra ==> HoldsAt(buf[..], at, end))
  {
    buf := extra;
    while buf.Length <= room
      invariant buf == extra || fresh(buf)
      invariant buf.Length > 0 && (inExtra ==> HoldsAt(buf[..], at, end))
      decreases room - buf.Length
    {
      ghost var before := buf;
      buf := GrowPreserve(buf);
      assert inExtra ==> buf[at..at + |end|] == before[at..at + |end|] && buf[at + |end|] == before[at + |end|];
    }
  }

  // The source and destination may overlap.
  method MemMove(a: array<char>, dst: nat, src: nat, n: nat)
    requires dst + n <= a.Length && src + n <= a.Length
    modifies a
    ensures a[dst..dst + n] == old(a[src..src + n])
  {
    forall i | 0 <= i < n { a[dst + i] := a[src + i]; }
  }

  method MemCpy(a: array<char>, dst: nat, s: string)
    requires dst + |s| <= a.Length
    modifies a
    ensures a[dst..dst + |s|] == s
    ensures forall i :: 0 <= i < a.Length && !(dst <= i < dst + |s|) ==> a[i] == old(a[i])
  {
    forall i | 0 <= i < |s| { a[dst + i] := s[i]; }
  }

  lemma Joined(s: string, target: string, end: string)
    requires |target| + |end| < |s| && s[0..0 + |target|] == target
    requires s[|target|..|target| + (|end| + 1)] == end + ['\0']
    ensures HoldsAt(s, 0, target + end)
  {
    var tail := s[|target|..|target| + (|end| + 1)];
    assert forall i :: 0 <= i < |target| ==> s[i] == s[0..0 + |target|][i];
    assert forall i :: 0 <= i <= |end| ==> s[|target| + i] == tail[i];
  }

  lemma MovedOn(a: seq<char>, at: nat, rest: string, end: string)
    requires HoldsAt(a, at, rest) && |end| <= |rest| && rest[|rest| - |end|..] == end
    ensures HoldsAt(a, at + (|rest| - |end|), end)
  {
    var k := |rest| - |end|;
    assert a[at + k..at + |rest|] == a[at..at + |rest|][k..];
  }

  // The extra buffer and, once it is in use, the cursor into it.
  class Extra {
    var data: array<char>
    var used: bool
    var at: nat
    ghost var text: string

    ghost predicate Valid()
      reads this, data
    {
      data.Length > 0 && (used ==> HoldsAt(data[..], at, text))
    }

    constructor ()
      ensures Valid() && !used && fresh(data)
    {
      data := new char[1024];
      used, at, text := false, 0, "";
    }

    // The cursor moves past a component.
    method Move(steps: nat, ghost end: string)
      requires Valid() && (used ==> |end| + steps == |text| && text[steps..] == end)
      modifies this`at, this`text
      ensures Valid() && (used ==> text == end)
    {
      if used {
        MovedOn(data[..], at, text, end);
        at := at + steps;
        text := end;
      }
    }

    // Past a component, and in front of what follows the target of a link, if it is one.
    method Take(steps: nat, end: string, target: Option<string>) returns (rest: string)
      requires Valid() && (used ==> |end| + steps == |text| && text[steps..] == end)
      modifies this, data
      ensures Valid() && (data == old(data) || fresh(data))
      ensures rest == Remaining(target, end) && (used ==> text == rest)
    {
      Move(steps, end);
      rest := end;
      if target.Some? {
        rest := Splice(end, target.value);
      }
    }

    /** The link target goes in front of the remaining text, which may already lie in the
        same buffer, overlapping the place it is moved to. */
    method Splice(end: string, target: string) returns (rest: string)
      requires Valid() && (used ==> text == end)
      modifies this, data
      ensures Valid() && used && (data == old(data) || fresh(data))
      ensures rest == text == target + end
    {
      var buf := EnsureRoom(data, used, at, end, |end| + |target|);
      if used {
        MoveUp(buf, at, end, |target|);
      } else {
        MemCpy(buf, |target|, end + ['\0']);
      }
      PutInFront(buf, end, target);
      data, used, at, text := buf, true, 0, target + end;
      rest := buf[0..|target| + |end|];
    }
  }

  // The text and its terminator to their new place; the two may overlap.
  method MoveUp(buf: array<char>, at: nat, end: string, n: nat)
    requires HoldsAt(buf[..], at, end) && n + |end| < buf.Length
    modifies buf
    ensures buf[n..n + (|end| + 1)] == end + ['\0']
  {
    assert buf[at..at + (|end| + 1)] == end + ['\0'];
    MemMove(buf, n, at, |end| + 1);
  }

  method PutInFront(buf: array<char>, end: string, target: string)
    requires |target| + |end| < buf.Length && buf[|target|..|target| + (|end| + 1)] == end + ['\0']
    modifies buf
    ensures HoldsAt(buf[..], 0, target + end)
  {
    ghost var tail := buf[|target|..|target| + (|end| + 1)];
    MemCpy(buf, 0, target);
    assert buf[|target|..|target| + (|end| + 1)] == tail;
    Joined(buf[..], target, end);
  }

  // ---------------------------------------------------------------- realpath_stk

  lemma SkipOne(rest: string, i: nat)
    requires i < |rest| && rest[i] == '/'
    ensures SkipSlashes(rest[i..]) == SkipSlashes(rest[i + 1..])
  {
    assert rest[i..][1..] == rest[i + 1..];
  }

  lemma TakeName(rest: string, i: nat, k: nat)
    requires i < k <= |rest| && SkipSlashes(rest[i..]) == SkipSlashes(rest)
    requires (forall x :: i <= x < k ==> rest[x] != '/') && (k == |rest| || rest[k] == '/')
    ensures NextIs(rest, rest[i..k], rest[k..])
  {
    var s, c, e := rest[i..], rest[i..k], rest[k..];
    assert s == c + e;
    ComponentsName(c, e);
    SameAfterSkip(rest, s);
  }

  lemma SameAfterSkip(rest: string, s: string)
    requires s != "" && s[0] != '/' && SkipSlashes(rest) == SkipSlashes(s)
    ensures Components(rest) == Components(s)
  {
  }

  // Skipping separators and finding the end of the component.
  method NextComponent(rest: string) returns (c: string, end: string)
    requires rest != ""
    ensures c == "" ==> SkipSlashes(rest) == ""
    ensures c != "" ==> NextIs(rest, c, end)
    ensures |end| <= |rest| && rest[|rest| - |end|..] == end
  {
    var start := 0;
    assert rest[0..] == rest;
    while start < |rest| && rest[start] == '/'
      invariant 0 <= start <= |rest| && SkipSlashes(rest[start..]) == SkipSlashes(rest)
    {
      SkipOne(rest, start);
      start := start + 1;
    }
    var k := start;
    while k < |rest| && rest[k] != '/'
      invariant start <= k <= |rest| && forall x :: start <= x < k ==> rest[x] != '/'
    {
      k := k + 1;
    }
    c, end := rest[start..k], rest[k..];
    if start < k {
      TakeName(rest, start, k);
    }
  }

  datatype Step = Follow(target: string) | Enter | Stop(errno: Errno)

  // readlink on the component just appended, and the check that may follow it.
  method LookUp(root: Node, dest: string, end: string) returns (step: Step)
    requires end == "" || end[0] == '/'
    ensures step == Looked(root, dest, end)
  {
    var l := ReadLink(root, dest);
    if l.Target? {
      return Follow(l.text);
    }
    var check := SuffixRequiresDirCheck(end);
    if check {
      var o := Stat(root, dest + "/");
      step := if o.Found? then Enter else Stop(ErrnoOf(o));
    } else {
      step := if l.errno == EINVAL then Enter else Stop(l.errno);
    }
  }

  ghost function Looked(root: Node, dest: string, end: string): Step
  {
    var l := ReadLink(root, dest);
    var o := Stat(root, dest + "/");
    if l.Target? then Follow(l.text)
    else if DirDemanded(Components(end)) then if o.Found? then Enter else Stop(ErrnoOf(o))
    else if l.errno == EINVAL then Enter else Stop(l.errno)
  }

  lemma EnterStep(root: Node, dest: string, path: Path, rest: string, links: nat, goal: Outcome,
                  c: string, end: string)
    requires OnTrack(root, dest, path, rest, links, goal) && NextIs(rest, c, end) && SimpleName(c)
    ensures var step := Looked(root, Slashed(path + [c]), end);
      match step
      case Follow(t) => ReadLink(root, Slashed(path + [c])) == Target(t)
      case Enter => OnTrack(root, Slashed(path + [c]), path + [c], end, links, goal)
      case Stop(e) => goal == if e == ENOENT then Missing(path + [c]) else Failed(e)
  {
    var l := ReadLink(root, Slashed(path + [c]));
    if l.NoLink? {
      if DirDemanded(Components(end)) {
        CheckedStep(root, dest, path, rest, links, goal, c, end, l.errno);
      } else {
        UncheckedStep(root, dest, path, rest, links, goal, c, end, l.errno);
      }
    }
  }

  lemma LastIsNoSlash(path: Path)
    requires path != [] && (forall i :: 0 <= i < |path| ==> path[i] != "" && '/' !in path[i])
    ensures Slashed(path) != "" && Slashed(path)[|Slashed(path)| - 1] != '/'
  {
    var p, last := path[..|path| - 1], path[|path| - 1];
    assert path == p + [last];
    SlashedAppend(p, last);
    assert last[|last| - 1] in last;
  }

  // Appending a component, with a slash before it if there is none.
  lemma Appended(dest: string, path: Path, c: string)
    requires Represents(dest, path)
    requires forall i :: 0 <= i < |path| ==> path[i] != "" && '/' !in path[i]
    ensures dest != ""
    ensures (if dest[|dest| - 1] != '/' then dest + "/" else dest) + c == Slashed(path + [c])
  {
    SlashedAppend(path, c);
    if path != [] {
      LastIsNoSlash(path);
    }
  }

  /** The body of the loop for a component other than "." and "..": append it, look it up,
      and either enter it, follow it if the link budget allows, or give up. */
  method NameComponent(root: Node, dest: string, ghost path: Path, rest: string, links: nat, ghost goal: Outcome,
                       c: string, end: string) returns (next: Step, d: string, ghost path': Path)
    requires OnTrack(root, dest, path, rest, links, goal) && NextIs(rest, c, end) && SimpleName(c)
    ensures Taken(root, next, d, path', end, links, goal)
  {
    Appended(dest, path, c);
    EnterStep(root, dest, path, rest, links, goal, c, end);
    d, path' := dest, path + [c];
    if d[|d| - 1] != '/' {
      d := d + "/";
    }
    d := d + c;
    next := LookUp(root, d, end);
    if next.Follow? {
      var back := "/";
      if !Absolute(next.target) {
        back := BackUp(d);
        FollowedFrom(d, path, c, back);
      }
      LinkStep(root, dest, path, rest, links, goal, c, end, next.target, back);
      if links + 1 > MAX_LINKS {
        next := Stop(ELOOP);
      } else {
        d, path' := back, if Absolute(next.target) then [] else path;
      }
    }
  }

  // What a turn of the loop leaves behind.
  ghost predicate Taken(root: Node, next: Step, d: string, path: Path, end: string, links: nat, goal: Outcome)
  {
    match next
    case Enter => OnTrack(root, d, path, end, links, goal)
    case Follow(t) => links < MAX_LINKS && OnTrack(root, d, path, t + end, links + 1, goal)
    case Stop(e) => Ended(e, d, path, goal)
  }

  // The body of the loop: "." changes nothing, ".." backs up, a name is looked up.
  method TakeComponent(root: Node, dest: string, ghost path: Path, rest: string, links: nat, ghost goal: Outcome,
                       c: string, end: string) returns (next: Step, d: string, ghost path': Path)
    requires OnTrack(root, dest, path, rest, links, goal) && NextIs(rest, c, end)
    ensures Taken(root, next, d, path', end, links, goal)
  {
    if c == "." {
      DotStep(root, dest, path, rest, links, goal, end);
      return Enter, dest, path;
    } else if c == ".." {
      d := BackUp(dest);
      DotDotStep(root, dest, path, rest, links, goal, end, d);
      return Enter, d, Parent(path);
    }
    next, d, path' := NameComponent(root, dest, path, rest, links, goal, c, end);
  }

  datatype Advanced = Finished | GaveUp(errno: Errno) | Continue(target: Option<string>)

  // The text still to resolve: a link's target, if there is one, and what follows.
  function Remaining(target: Option<string>, end: string): string
  {
    if target.None? then end else target.value + end
  }

  function NextOf(step: Step): Advanced
  {
    match step
    case Enter => Continue(None)
    case Stop(e) => GaveUp(e)
    case Follow(t) => Continue(Some(t))
  }

  function LinksAfter(links: nat, next: Advanced): nat
  {
    if next.Continue? && next.target.Some? then links + 1 else links
  }

  ghost predicate Onward(root: Node, next: Advanced, d: string, path: Path, end: string, links: nat, goal: Outcome)
  {
    match next
    case Finished => goal == Found(path) && Represents(d, path)
    case GaveUp(e) => Ended(e, d, path, goal)
    case Continue(t) => OnTrack(root, d, path, Remaining(t, end), LinksAfter(links, next), goal)
  }

  lemma StepOnward(root: Node, step: Step, d: string, path: Path, end: string, links: nat, goal: Outcome)
    requires Taken(root, step, d, path, end, links, goal)
    ensures Onward(root, NextOf(step), d, path, end, links, goal)
  {
  }

  // The next component, if there is one, and what it leads to.
  method Advance(root: Node, dest: string, ghost path: Path, rest: string, links: nat, ghost goal: Outcome)
      returns (next: Advanced, d: string, ghost path': Path, end: string)
    requires rest != "" && OnTrack(root, dest, path, rest, links, goal)
    ensures |end| <= |rest| && rest[|rest| - |end|..] == end && (next.Continue? ==> |end| < |rest|)
    ensures Onward(root, next, d, path', end, links, goal)
  {
    var c;
    c, end := NextComponent(rest);
    if c == "" {
      OnlySlashes(root, dest, path, rest, links, goal);
      next, d, path' := Finished, dest, path;
    } else {
      var step;
      step, d, path' := TakeComponent(root, dest, path, rest, links, goal, c, end);
      StepOnward(root, step, d, path', end, links, goal);
      next := NextOf(step);
    }
  }

  // The error matches the outcome; for a missing component, d names it.
  ghost predicate Ended(errno: Errno, d: string, path: Path, goal: Outcome)
  {
    if errno == ENOENT then goal == Missing(path) && d == Slashed(path) else goal == Failed(errno)
  }

  // What the loop leaves for an outcome: the text of the path, or the error and, for a
  // missing component, its name.
  ghost predicate Answers(goal: Outcome, dest: string, failed: bool, errno: Errno)
  {
    match goal
    case Found(p) => !failed && Represents(dest, p)
    case Missing(p) => failed && errno == ENOENT && dest == Slashed(p)
    case Failed(e) => failed && errno == e && e != ENOENT
  }

  /** The main loop, from a directory whose text is start. */
  method Resolve(root: Node, start: string, ghost startPath: Path, name: string)
      returns (dest: string, failed: bool, errno: Errno)
    requires root.Dir? && Represents(start, startPath) && Canonical(root, startPath) && IsDir(root, startPath)
    ensures Answers(Walk(root, startPath, Components(name), 0), dest, failed, errno)
  {
    dest, failed, errno := start, true, EINVAL;
    ghost var path := startPath;
    var rest, links: nat := name, 0;
    var extra := new Extra();
    ghost var goal := Walk(root, startPath, Components(name), 0);
    while rest != ""
      invariant OnTrack(root, dest, path, rest, links, goal)
      invariant fresh(extra) && fresh(extra.data) && extra.Valid() && (extra.used ==> extra.text == rest)
      decreases MAX_LINKS - links, |rest|
    {
      var next, end;
      next, dest, path, end := Advance(root, dest, path, rest, links, goal);
      if next.Finished? {
        failed := false;
        return;
      }
      if next.GaveUp? {
        failed, errno := true, next.errno;
        return;
      }
      links := LinksAfter(links, next);
      rest := extra.Take(|rest| - |end|, end, next.target);
    }
    OnlySlashes(root, dest, path, rest, links, goal);
    failed := false;
  }

  lemma FollowedFrom(dest: string, path: Path, c: string, d: string)
    requires dest == Slashed(path + [c]) && BackedUp(dest, d) && c != "" && '/' !in c
    requires forall i :: 0 <= i < |path| ==> path[i] != "" && '/' !in path[i]
    ensures d == Slashed(path) + "/"
  {
    assert Parent(path + [c]) == path;
    BackUpIsParent(dest, path + [c], d);
  }

  // ------------------------------------------------------------- spindle_realpath

  /** What the caller should see for the outcome of resolution: the text of the path, or
      an error; a caller's buffer holds PATH_MAX characters with the terminator, and is
      given the name of a component that does not exist. */
  ghost function Reported(o: Outcome, hasBuffer: bool): Result
  {
    match o
    case Found(p) =>
      if hasBuffer && |Text(p)| + 1 > PATH_MAX then Error(ENAMETOOLONG, None) else Resolved(Text(p))
    case Missing(p) =>
      Error(ENOENT, if hasBuffer && |Text(p)| + 1 <= PATH_MAX then Some(Text(p)) else None)
    case Failed(e) => Error(e, None)
  }

  lemma TrailingSlash(dest: string, path: Path)
    requires Represents(dest, path)
    requires forall i :: 0 <= i < |path| ==> path[i] != "" && '/' !in path[i]
    ensures dest != "" && Text(path) ==
      if |dest| > 1 && dest[|dest| - 1] == '/' then dest[..|dest| - 1] else dest
  {
    if path != [] {
      LastIsNoSlash(path);
    }
  }

  lemma MissingIsNamed(root: Node, dir: Path, comps: Path, links: nat)
    ensures Walk(root, dir, comps, links).Missing? ==> Walk(root, dir, comps, links).at != []
    ensures Walk(root, dir, comps, links).Failed? ==> Walk(root, dir, comps, links).errno in {ENOTDIR, ELOOP}
    decreases MAX_LINKS - links, |comps|
  {
  }

  /** The name resolves as component by component resolution says, from the root or from
      the current directory, which getcwd names canonically. */
  method SpindleRealpath(root: Node, cwd: string, ghost cwdPath: Path, name: Option<string>, hasBuffer: bool)
      returns (r: Result)
    requires root.Dir? && cwd == Text(cwdPath) && Canonical(root, cwdPath) && IsDir(root, cwdPath)
    ensures name == None ==> r == Error(EINVAL, None)
    ensures name == Some("") ==> r == Error(ENOENT, None)
    ensures name.Some? && name.value != "" ==>
      var start := if Absolute(name.value) then [] else cwdPath;
      r == Reported(Walk(root, start, Components(name.value), 0), hasBuffer)
  {
    if name.None? {
      return Error(EINVAL, None);
    }
    if name.value == "" {
      return Error(ENOENT, None);
    }
    ghost var start := if Absolute(name.value) then [] else cwdPath;
    var dest := if Absolute(name.value) then "/" else cwd;
    assert Slashed([]) + "/" == "/";
    ComponentsAreNames(name.value);
    WalkIsCanonical(root, start, Components(name.value), 0);
    MissingIsNamed(root, start, Components(name.value), 0);
    ghost var goal := Walk(root, start, Components(name.value), 0);
    var failed, errno;
    dest, failed, errno := Resolve(root, dest, start, name.value);
    if !failed {
      TrailingSlash(dest, goal.path);
      if |dest| > 1 && dest[|dest| - 1] == '/' {
        dest := dest[..|dest| - 1];
      }
    }
    if hasBuffer {
      if (!failed || errno == ENOENT) && |dest| + 1 <= PATH_MAX {
        return if failed then Error(errno, Some(dest)) else Resolved(dest);
      }
      return Error(if !failed then ENAMETOOLONG else errno, None);
    }
    r := if failed then Error(errno, None) else Resolved(dest);
  }

  /** A resolved name is absolute, has only simple components, none of whose prefixes is a
      link, and resolving it again gives the same name. */
  lemma ResolvedIsCanonical(root: Node, start: Path, name: string, hasBuffer: bool)
    requires root.Dir? && Canonical(root, start)
    requires Reported(Walk(root, start, Components(name), 0), hasBuffer).Resolved?
    ensures var text := Reported(Walk(root, start, Components(name), 0), hasBuffer).text;
      && Absolute(text) && Canonical(root, Walk(root, start, Components(name), 0).path)
      && Reported(Walk(root, [], Components(text), 0), hasBuffer) == Resolved(text)
  {
    ComponentsAreNames(name);
    WalkIsCanonical(root, start, Components(name), 0);
    ResolvedTextIsFixed(root, Walk(root, start, Components(name), 0).path, 0);
  }

  /** A link to itself is followed until the budget is spent, and reported. */
  lemma {:induction false} SelfLinkLoops(root: Node, dir: Path, c: string, links: nat)
    requires IsDir(root, dir) && SimpleName(c) && Get(root, dir + [c]) == Some(Link(c))
    ensures Walk(root, dir, [c], links) == Failed(ELOOP)
    decreases MAX_LINKS - links
  {
    if links < MAX_LINKS {
      ComponentsName(c, "");
      assert c + "" == c && [c][1..] == [] && Components(c) + [] == [c];
      assert !Absolute(c) by { assert c[0] in c; }
      SelfLinkLoops(root, dir, c, links + 1);
    }
  }

  // ------------------------------------------------------------------- the two limits

  // Names in one directory: each but the last a link to the next, the last one a file.
  predicate Chain(root: Node, dir: Path, names: seq<string>)
  {
    && names != []
    && (forall i :: 0 <= i < |names| ==> SimpleName(names[i]))
    && (forall i :: 0 <= i < |names| - 1 ==> Get(root, dir + [names[i]]) == Some(Link(names[i + 1])))
    && Get(root, dir + [names[|names| - 1]]) == Some(File)
  }

  lemma OneLink(root: Node, dir: Path, c: string, d: string, links: nat)
    requires IsDir(root, dir) && SimpleName(c) && SimpleName(d) && Get(root, dir + [c]) == Some(Link(d))
    ensures Walk(root, dir, [c], links) == if links >= MAX_LINKS then Failed(ELOOP) else Walk(root, dir, [d], links + 1)
  {
    ComponentsName(d, "");
    assert d + "" == d && [c][1..] == [] && Components(d) + [] == [d];
    assert !Absolute(d) by { assert d[0] in d; }
  }

  lemma {:induction false} ChainWalk(root: Node, dir: Path, names: seq<string>, links: nat)
    requires IsDir(root, dir) && Chain(root, dir, names) && links <= 40
    ensures Walk(root, dir, [names[0]], links) ==
      if links + |names| - 1 <= 40 then Found(dir + [names[|names| - 1]]) else Failed(ELOOP)
    decreases |names|
  {
    if |names| == 1 {
      assert [names[0]][1..] == [];
    } else {
      OneLink(root, dir, names[0], names[1], links);
      var rest := names[1..];
      assert Get(root, dir + [rest[|rest| - 1]]) == Some(File);
      if links < 40 {
        ChainWalk(root, dir, rest, links + 1);
      }
    }
  }

  /** The limit on links, in numbers: a chain of k links is followed to its file if and only
      if k is at most 40, by its absolute name and from the current directory; a longer one
      is reported as ELOOP. */
  lemma FortyLinksAtMost(root: Node, dir: Path, names: seq<string>)
    requires root.Dir? && Canonical(root, dir) && IsDir(root, dir) && Chain(root, dir, names)
    ensures var o := if |names| - 1 <= 40 then Found(dir + [names[|names| - 1]]) else Failed(ELOOP);
      && Walk(root, [], Components(Text(dir + [names[0]])), 0) == o
      && Walk(root, dir, Components(names[0]), 0) == o
      && Reported(o, false) == if |names| - 1 <= 40 then Resolved(Text(dir + [names[|names| - 1]])) else Error(ELOOP, None)
  {
    ChainWalk(root, dir, names, 0);
    var c := names[0];
    ComponentsName(c, "");
    assert c + "" == c && Components("") == [] && [c] + [] == [c];
    ComponentsSlashed(dir + [c], "");
    assert Slashed(dir + [c]) + "" == Slashed(dir + [c]) && dir + [c] + [] == dir + [c];
    WalkDown(root, dir, [c], 0);
  }

  /** The limit on names, in numbers: a caller's buffer takes a resolved name, or the name of
      what is missing, if and only if it has fewer than 4096 characters; without a buffer
      there is no limit. */
  lemma BufferLimit(path: Path)
    ensures Reported(Found(path), true) == if |Text(path)| < 4096 then Resolved(Text(path)) else Error(ENAMETOOLONG, None)
    ensures Reported(Found(path), false) == Resolved(Text(path))
    ensures Reported(Missing(path), true) == Error(ENOENT, if |Text(path)| < 4096 then Some(Text(path)) else None)
    ensures Reported(Missing(path), false) == Error(ENOENT, None)
  {
  }
}
