/**
 * The POSIX path helpers the builders rely on: `os.path.split`,
 * `os.path.join` with two components, and `os.path.relpath`, all purely
 * lexical (the current directory is a parameter).
 */
module Paths {
  import opened Wrappers
  import opened Text

  predicate EndsWithSlash(s: string)
  {
    |s| > 0 && s[|s| - 1] == '/'
  }

  predicate StartsWithSlash(s: string)
  {
    |s| > 0 && s[0] == '/'
  }

  predicate HasNoSlash(s: string)
  {
    forall i :: 0 <= i < |s| ==> s[i] != '/'
  }

  predicate AllSlashes(s: string)
  {
    forall i :: 0 <= i < |s| ==> s[i] == '/'
  }

  /** Index of the last `/` in `p`, or -1 when there is none (`str.rfind`). */
  function LastSlash(p: string): (i: int)
    ensures -1 <= i < |p|
    ensures i >= 0 ==> p[i] == '/'
    ensures forall j :: i < j < |p| ==> p[j] != '/'
  {
    if p == [] then -1
    else if p[|p| - 1] == '/' then |p| - 1
    else LastSlash(p[..|p| - 1])
  }

  /** `s.rstrip('/')`: the longest prefix of `s` not ending in a slash. */
  function RStripSlashes(s: string): (r: string)
    ensures r <= s
    ensures !EndsWithSlash(r)
    ensures forall i :: |r| <= i < |s| ==> s[i] == '/'
  {
    if EndsWithSlash(s) then RStripSlashes(s[..|s| - 1]) else s
  }

  /**
   * `os.path.split(p)`: the tail is everything after the last slash, the head
   * everything before it, with trailing slashes removed from the head unless
   * the head consists of slashes only.
   */
  function Split(p: string): (r: (string, string))
    ensures HasNoSlash(r.1)
    ensures |r.1| <= |p| && p[|p| - |r.1|..] == r.1
    ensures r.0 <= p
  {
    var i := LastSlash(p) + 1;
    var head, tail := p[..i], p[i..];
    (if head != [] && !AllSlashes(head) then RStripSlashes(head) else head, tail)
  }

  /**
   * `os.path.join(a, b)`: an absolute `b` replaces `a`; otherwise `b` is
   * appended, with one separating slash added unless `a` is empty or already
   * ends in one.
   */
  function Join(a: string, b: string): (r: string)
    ensures |b| <= |r| && r[|r| - |b|..] == b
    ensures !StartsWithSlash(b) ==> a <= r
    ensures !StartsWithSlash(b) && |r| > |a| + |b| ==> r == a + "/" + b && a != [] && !EndsWithSlash(a)
  {
    if StartsWithSlash(b) then b
    else if a == [] || EndsWithSlash(a) then a + b
    else a + "/" + b
  }

  /** A slash-free tail is exactly what `Split` returns after the last slash. */
  lemma {:induction false} SplitAfterSlash(dir: string, leaf: string)
    requires HasNoSlash(leaf)
    ensures LastSlash(dir + "/" + leaf) == |dir|
    ensures Split(dir + "/" + leaf).1 == leaf
    ensures dir != [] && !EndsWithSlash(dir) ==> Split(dir + "/" + leaf).0 == dir
  {
    var p := dir + "/" + leaf;
    LastSlashOfSuffix(dir + "/", leaf);
    assert p[..|dir| + 1] == dir + "/";
    if dir != [] && !EndsWithSlash(dir) {
      assert !AllSlashes(dir + "/") by { assert (dir + "/")[|dir| - 1] == dir[|dir| - 1]; }
      assert RStripSlashes(dir + "/") == RStripSlashes(dir) by { assert (dir + "/")[..|dir|] == dir; }
    }
  }

  /** Appending a slash-free string after a slash leaves that slash the last one. */
  lemma {:induction false} LastSlashOfSuffix(prefix: string, leaf: string)
    requires EndsWithSlash(prefix) && HasNoSlash(leaf)
    ensures LastSlash(prefix + leaf) == |prefix| - 1
    decreases |leaf|
  {
    if leaf != [] {
      var p := prefix + leaf;
      assert p[..|p| - 1] == prefix + leaf[..|leaf| - 1];
      LastSlashOfSuffix(prefix, leaf[..|leaf| - 1]);
    } else {
      assert prefix + leaf == prefix;
    }
  }

  /** A path without any slash splits into an empty head and itself. */
  lemma {:induction false} SplitNoSlash(p: string)
    requires HasNoSlash(p)
    ensures Split(p) == ("", p)
  {
    assert LastSlash(p) == -1;
    assert p[..0] == [] && p[0..] == p;
  }

  /** The last component of `Join(dir, leaf)` is `leaf` when `leaf` has no slash. */
  lemma JoinThenSplit(dir: string, leaf: string)
    requires HasNoSlash(leaf)
    ensures Split(Join(dir, leaf)).1 == leaf
  {
    if leaf != [] && leaf[0] == '/' {
      assert false;
    } else if dir == [] {
      assert Join(dir, leaf) == leaf;
      SplitNoSlash(leaf);
    } else if EndsWithSlash(dir) {
      LastSlashOfSuffix(dir, leaf);
      assert (dir + leaf)[|dir|..] == leaf;
    } else {
      SplitAfterSlash(dir, leaf);
    }
  }

  /** `s` less its last character when that is a slash. */
  function DropTrailingSlash(s: string): string
  {
    if EndsWithSlash(s) then s[..|s| - 1] else s
  }

  /** Putting the dropped slash back gives the original string. */
  lemma DropTrailingSlashRestores(s: string)
    ensures EndsWithSlash(s) ==> DropTrailingSlash(s) + "/" == s
    ensures !EndsWithSlash(s) ==> DropTrailingSlash(s) == s
  {
    if EndsWithSlash(s) {
      assert s[..|s| - 1] + "/" == s;
    }
  }

  // ---------------------------------------------------------------------------
  // relpath

  /** `p.split('/')`. */
  function Segments(p: string): seq<string>
  {
    SplitOn(p, '/')
  }

  /** A component that `normpath` keeps as it is. */
  predicate Ordinary(c: string)
  {
    c != "" && c != "." && c != ".."
  }

  /**
   * `normpath` on the components of an absolute path, left to right: empty
   * and `.` components vanish, `..` removes the component before it and is
   * dropped at the root.
   */
  function Normalize(comps: seq<string>): seq<string>
  {
    if comps == [] then []
    else
      var init, c := Normalize(comps[..|comps| - 1]), comps[|comps| - 1];
      if c == "" || c == "." then init
      else if c == ".." then (if init == [] then [] else init[..|init| - 1])
      else init + [c]
  }

  /** `normpath` leaves no empty, `.` or `..` component. */
  lemma {:induction false} NormalizedOrdinary(comps: seq<string>)
    ensures forall i :: 0 <= i < |Normalize(comps)| ==> Ordinary(Normalize(comps)[i])
  {
    if comps != [] {
      NormalizedOrdinary(comps[..|comps| - 1]);
    }
  }

  /** The components of `abspath(p)` when the current directory is `cwd`. */
  function AbsComponents(cwd: string, p: string): seq<string>
  {
    Normalize(Segments(Join(cwd, p)))
  }

  /** Length of the longest common prefix of two component lists (`commonprefix`). */
  function CommonPrefixLen(a: seq<string>, b: seq<string>): (n: nat)
    ensures n <= |a| && n <= |b|
  {
    if a == [] || b == [] || a[0] != b[0] then 0
    else 1 + CommonPrefixLen(a[1..], b[1..])
  }

  /** `CommonPrefixLen` is a common prefix, and the longest one. */
  lemma {:induction false} CommonPrefix(a: seq<string>, b: seq<string>)
    ensures var n := CommonPrefixLen(a, b);
      a[..n] == b[..n] && (n < |a| && n < |b| ==> a[n] != b[n])
  {
    if a != [] && b != [] && a[0] == b[0] {
      CommonPrefix(a[1..], b[1..]);
      var n := CommonPrefixLen(a, b);
      assert a[..n] == [a[0]] + a[1..][..n - 1];
      assert b[..n] == [b[0]] + b[1..][..n - 1];
    }
  }

  /** `[pardir] * n`. */
  function Ups(n: nat): (r: seq<string>)
    ensures |r| == n
  {
    if n == 0 then [] else Ups(n - 1) + [".."]
  }

  /**
   * `os.path.relpath(p, start)`: climb out of `start` with `..` up to the
   * common ancestor, then descend into `p`; `.` when they are the same
   * directory. An empty `p` is a `ValueError` (`None`).
   */
  function RelPath(cwd: string, p: string, start: string): (r: Option<string>)
    ensures r.None? <==> p == ""
  {
    if p == [] then None
    else
      var s, t := AbsComponents(cwd, start), AbsComponents(cwd, p);
      var i := CommonPrefixLen(s, t);
      var rel := Ups(|s| - i) + t[i..];
      if rel == [] then Some(".") else Some(JoinOn(rel, '/'))
  }

  /** Joining a relative path onto a non-empty directory puts exactly one slash between them. */
  lemma JoinRelative(dir: string, p: string)
    requires dir != [] && !StartsWithSlash(p)
    ensures Join(dir, p) == DropTrailingSlash(dir) + "/" + p
  {
    DropTrailingSlashRestores(dir);
  }

  lemma NormalizeOrdinary(comps: seq<string>, c: string)
    requires Ordinary(c)
    ensures Normalize(comps + [c]) == Normalize(comps) + [c]
  {
    assert (comps + [c])[..|comps|] == comps;
  }

  /** A list shares all of itself with any longer list that starts with it. */
  lemma {:induction false} CommonPrefixOfExtension(a: seq<string>, b: seq<string>)
    requires |b| > 0
    ensures CommonPrefixLen(a, a + b) == |a|
  {
    if a != [] {
      assert (a + b)[1..] == a[1..] + b;
      CommonPrefixOfExtension(a[1..], b);
    }
  }

  /**
   * A file directly inside the directory `start` is named relative to it by
   * its own name: `relpath('_images/logo.png', '_images') == 'logo.png'`.
   */
  lemma RelPathInside(cwd: string, start: string, name: string)
    requires StartsWithSlash(cwd)
    requires Ordinary(start) && HasNoSlash(start) && Ordinary(name) && HasNoSlash(name)
    ensures RelPath(cwd, start + "/" + name, start) == Some(name)
  {
    var base := DropTrailingSlash(cwd);
    assert !StartsWithSlash(start + "/" + name) && !StartsWithSlash(start);
    JoinRelative(cwd, start);
    JoinRelative(cwd, start + "/" + name);
    assert '/' !in start && '/' !in name by {
      forall i | 0 <= i < |start| ensures start[i] != '/' { }
      forall i | 0 <= i < |name| ensures name[i] != '/' { }
    }
    SplitOnWithout(start, '/');
    SplitOnWithout(name, '/');
    SplitOnAround(base, '/', start);
    SplitOnAround(start, '/', name);
    assert base + "/" + (start + "/" + name) == base + ['/'] + (start + ['/'] + name);
    SplitOnAround(base, '/', start + "/" + name);
    assert Segments(start + "/" + name) == [start, name];
    assert Segments(Join(cwd, start + "/" + name)) == Segments(base) + [start, name];
    var n := Normalize(Segments(base));
    NormalizeOrdinary(Segments(base), start);
    NormalizeOrdinary(Segments(base) + [start], name);
    assert Segments(base) + [start, name] == Segments(base) + [start] + [name];
    var s, t := n + [start], n + [start] + [name];
    assert AbsComponents(cwd, start) == s;
    assert AbsComponents(cwd, start + "/" + name) == t;
    CommonPrefixOfExtension(s, [name]);
    assert Ups(0) + t[|s|..] == [name];
  }
}
