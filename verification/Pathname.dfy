/** Pathname resolution over a tree of files, directories and symbolic links, component by
    component as in section 4.13 of POSIX.1-2017 Base Definitions, with the limit of forty
    links.  readlink and stat are defined by it. */
module Pathname {
  import opened Collections

  datatype Node = File | Dir(entries: map<string, Node>) | Link(target: string)

  datatype Errno = EINVAL | ENOENT | ENOTDIR | ELOOP | ENAMETOOLONG

  type Path = seq<string>

  const MAX_LINKS := 40

  // ------------------------------------------------------------------ components

  function SkipSlashes(s: string): (r: string)
    ensures r == "" || r[0] != '/'
    ensures |r| <= |s| && (s != "" && s[0] == '/' ==> |r| < |s|)
    ensures s != "" && s[0] != '/' ==> r == s
  {
    if s != "" && s[0] == '/' then SkipSlashes(s[1..]) else s
  }

  // The length of the leading component.
  function NameLen(s: string): (k: nat)
    ensures k <= |s| && '/' !in s[..k] && (k < |s| ==> s[k] == '/')
    ensures s != "" && s[0] != '/' ==> k > 0
  {
    if s == "" || s[0] == '/' then 0
    else
      var k := NameLen(s[1..]) + 1;
      assert s[..k] == [s[0]] + s[1..][..k - 1];
      k
  }

  /** The components of a name.  Runs of slashes separate; a trailing slash stands for a
      final "." component. */
  function Components(s: string): Path
    decreases |s|
  {
    if s == "" then []
    else if s[0] == '/' then
      if SkipSlashes(s) == "" then ["."] else Components(SkipSlashes(s))
    else [s[..NameLen(s)]] + Components(s[NameLen(s)..])
  }

  // -------------------------------------------------------------------- resolution

  function Get(root: Node, path: Path): Option<Node>
  {
    if path == [] then Some(root)
    else if root.Dir? && path[0] in root.entries then Get(root.entries[path[0]], path[1..])
    else None
  }

  predicate IsDir(root: Node, path: Path)
  {
    var n := Get(root, path);
    n.Some? && n.value.Dir?
  }

  function Parent(path: Path): Path
  {
    if path == [] then [] else path[..|path| - 1]
  }

  predicate Absolute(s: string)
  {
    s != "" && s[0] == '/'
  }

  datatype Outcome = Found(path: Path) | Missing(at: Path) | Failed(errno: Errno)

  /** Resolution of components from a directory, after some number of links. */
  function Walk(root: Node, dir: Path, comps: Path, links: nat): Outcome
    decreases MAX_LINKS - links, |comps|
  {
    if comps == [] then Found(dir)
    else if !IsDir(root, dir) then Failed(ENOTDIR)
    else
      var c, rest := comps[0], comps[1..];
      if c == "." then Walk(root, dir, rest, links)
      else if c == ".." then Walk(root, Parent(dir), rest, links)
      else
        var n := Get(root, dir + [c]);
        if n.None? then Missing(dir + [c])
        else if n.value.Link? then
          if links >= MAX_LINKS then Failed(ELOOP)
          else Walk(root, if Absolute(n.value.target) then [] else dir, Components(n.value.target) + rest, links + 1)
        else Walk(root, dir + [c], rest, links)
  }

  // stat on an absolute name.
  function Stat(root: Node, name: string): Outcome
  {
    Walk(root, [], Components(name), 0)
  }

  datatype LinkResult = Target(text: string) | NoLink(errno: Errno)

  function ErrnoOf(o: Outcome): Errno
    requires !o.Found?
  {
    if o.Missing? then ENOENT else o.errno
  }

  // readlink on an absolute name: the last component is not followed.
  function ReadLink(root: Node, name: string): LinkResult
  {
    var comps := Components(name);
    if comps == [] then NoLink(ENOENT)
    else
      var c := comps[|comps| - 1];
      var o := Walk(root, [], comps[..|comps| - 1], 0);
      if !o.Found? then NoLink(ErrnoOf(o))
      else if !IsDir(root, o.path) then NoLink(ENOTDIR)
      else if c == "." || c == ".." then NoLink(EINVAL)
      else
        var n := Get(root, o.path + [c]);
        if n.None? then NoLink(ENOENT)
        else if n.value.Link? then Target(n.value.target)
        else NoLink(EINVAL)
  }

  // ---------------------------------------------------------------- canonical paths

  predicate SimpleName(c: string)
  {
    c != "" && '/' !in c && c != "." && c != ".."
  }

  // A path without "." or ".." that names something other than a link.
  predicate Canonical(root: Node, path: Path)
  {
    && (forall i :: 0 <= i < |path| ==> SimpleName(path[i]))
    && Get(root, path).Some? && !Get(root, path).value.Link?
  }

  function Slashed(path: Path): string
  {
    if path == [] then "" else "/" + path[0] + Slashed(path[1..])
  }

  function Text(path: Path): string
  {
    if path == [] then "/" else Slashed(path)
  }

  lemma {:induction false} GetStep(root: Node, path: Path, c: string)
    ensures Get(root, path + [c]) ==
      if IsDir(root, path) && c in Get(root, path).value.entries then Some(Get(root, path).value.entries[c]) else None
  {
    if path == [] {
      assert (path + [c])[1..] == [];
    } else if root.Dir? && path[0] in root.entries {
      assert (path + [c])[1..] == path[1..] + [c];
      GetStep(root.entries[path[0]], path[1..], c);
    }
  }

  // Every proper prefix of an existing path is a directory.
  lemma {:induction false} PrefixesAreDirs(root: Node, path: Path, k: nat)
    requires Get(root, path).Some? && k < |path|
    ensures IsDir(root, path[..k])
    decreases |path|
  {
    var p := path[..|path| - 1];
    assert path == p + [path[|path| - 1]];
    GetStep(root, p, path[|path| - 1]);
    if k < |p| {
      PrefixesAreDirs(root, p, k);
      assert p[..k] == path[..k];
    }
  }

  /** No prefix of a canonical path is a symbolic link. */
  lemma NoPrefixIsLink(root: Node, path: Path, k: nat)
    requires Canonical(root, path) && k <= |path|
    ensures Get(root, path[..k]).Some? && !Get(root, path[..k]).value.Link?
  {
    if k < |path| {
      PrefixesAreDirs(root, path, k);
    } else {
      assert path[..k] == path;
    }
  }

  lemma ParentCanonical(root: Node, path: Path)
    requires Canonical(root, path)
    ensures Canonical(root, Parent(path)) && (path != [] ==> IsDir(root, Parent(path)))
  {
    if path != [] {
      PrefixesAreDirs(root, path, |path| - 1);
    }
  }

  /** Resolution yields a canonical path: simple names only, nothing a link. */
  lemma {:induction false} WalkIsCanonical(root: Node, dir: Path, comps: Path, links: nat)
    requires Canonical(root, dir) && root.Dir?
    requires forall i :: 0 <= i < |comps| ==> comps[i] != "" && '/' !in comps[i]
    ensures Walk(root, dir, comps, links).Found? ==> Canonical(root, Walk(root, dir, comps, links).path)
    decreases MAX_LINKS - links, |comps|
  {
    if comps != [] && IsDir(root, dir) {
      var c, rest := comps[0], comps[1..];
      if c == "." {
        WalkIsCanonical(root, dir, rest, links);
      } else if c == ".." {
        ParentCanonical(root, dir);
        WalkIsCanonical(root, Parent(dir), rest, links);
      } else {
        var n := Get(root, dir + [c]);
        if n.Some? && n.value.Link? {
          if links < MAX_LINKS {
            ComponentsAreNames(n.value.target);
            WalkIsCanonical(root, if Absolute(n.value.target) then [] else dir, Components(n.value.target) + rest, links + 1);
          }
        } else if n.Some? {
          WalkIsCanonical(root, dir + [c], rest, links);
        }
      }
    }
  }

  lemma {:induction false} ComponentsAreNames(s: string)
    ensures forall i :: 0 <= i < |Components(s)| ==> Components(s)[i] != "" && '/' !in Components(s)[i]
    decreases |s|
  {
    if s != "" {
      if s[0] == '/' {
        ComponentsAreNames(SkipSlashes(s));
      } else {
        ComponentsAreNames(s[NameLen(s)..]);
      }
    }
  }

  // Resolution goes straight down a canonical path.
  lemma {:induction false} WalkStraight(root: Node, path: Path, k: nat, rest: Path, links: nat)
    requires Canonical(root, path) && k <= |path|
    ensures Walk(root, path[..k], path[k..] + rest, links) == Walk(root, path, rest, links)
    decreases |path| - k
  {
    if k == |path| {
      assert path[..k] == path && path[k..] + rest == rest;
    } else {
      PrefixesAreDirs(root, path, k);
      NoPrefixIsLink(root, path, k + 1);
      var comps := path[k..] + rest;
      assert comps[0] == path[k] && comps[1..] == path[k + 1..] + rest;
      assert path[..k] + [path[k]] == path[..k + 1];
      WalkStraight(root, path, k + 1, rest, links);
    }
  }

  lemma WalkDown(root: Node, path: Path, rest: Path, links: nat)
    requires Canonical(root, path)
    ensures Walk(root, [], path + rest, links) == Walk(root, path, rest, links)
  {
    WalkStraight(root, path, 0, rest, links);
    assert path[..0] == [] && path[0..] == path;
  }

  // ------------------------------------------------------------- text of a path

  lemma {:induction false} NameThenSlash(c: string, e: string)
    requires '/' !in c && (e == "" || e[0] == '/')
    ensures NameLen(c + e) == |c|
  {
    if c == "" {
      assert c + e == e;
    } else {
      assert c[0] in c && (c + e)[1..] == c[1..] + e;
      NameThenSlash(c[1..], e);
    }
  }

  lemma SkipToName(c: string, e: string)
    requires c != "" && c[0] != '/'
    ensures SkipSlashes("/" + c + e) == c + e
  {
    assert ("/" + c + e)[1..] == c + e;
  }

  lemma ComponentsName(c: string, e: string)
    requires c != "" && '/' !in c && (e == "" || e[0] == '/')
    ensures Components(c + e) == [c] + Components(e)
    ensures Components("/" + c + e) == [c] + Components(e)
  {
    assert c[0] in c;
    NameThenSlash(c, e);
    assert (c + e)[..|c|] == c && (c + e)[|c|..] == e;
    SkipToName(c, e);
  }

  lemma {:induction false} ComponentsSlashed(path: Path, e: string)
    requires forall i :: 0 <= i < |path| ==> path[i] != "" && '/' !in path[i]
    requires e == "" || e[0] == '/'
    ensures Components(Slashed(path) + e) == path + Components(e)
  {
    if path == [] {
      assert Slashed(path) + e == e;
      assert path + Components(e) == Components(e);
    } else {
      ComponentsSlashed(path[1..], e);
      ComponentsOnce(path, e);
      FirstThenRest(path, Components(e));
    }
  }

  lemma ComponentsOnce(path: Path, e: string)
    requires path != [] && path[0] != "" && '/' !in path[0]
    requires e == "" || e[0] == '/'
    ensures Components(Slashed(path) + e) == [path[0]] + Components(Slashed(path[1..]) + e)
  {
    ComponentsName(path[0], Slashed(path[1..]) + e);
    Regroup("/" + path[0], Slashed(path[1..]), e);
  }

  lemma FirstThenRest<T>(s: seq<T>, t: seq<T>)
    requires s != []
    ensures [s[0]] + (s[1..] + t) == s + t
  {
  }

  lemma {:induction false} SlashedAppend(path: Path, c: string)
    ensures Slashed(path + [c]) == Slashed(path) + "/" + c
  {
    if path == [] {
      assert [c][1..] == [];
    } else {
      assert (path + [c])[1..] == path[1..] + [c];
      SlashedAppend(path[1..], c);
    }
  }

  /** Resolving the text of a canonical path gives the path back. */
  lemma ResolvedTextIsFixed(root: Node, path: Path, links: nat)
    requires Canonical(root, path) && root.Dir?
    ensures Walk(root, [], Components(Text(path)), links) == Found(path)
  {
    if path == [] {
      assert SkipSlashes("/"[1..]) == "";
      assert Components("/") == ["."];
    } else {
      ComponentsSlashed(path, "");
      assert Slashed(path) + "" == Slashed(path) && path + [] == path;
      WalkDown(root, path, [], links);
    }
  }
}
