/**
 * Resolved paths as `pathlib` sees them: a path is the sequence of its
 * components below the filesystem root (the root itself is `[]`).
 * Name, parent, suffix, relative_to, os.path.commonpath and the ordering
 * that `sorted` uses on `Path` objects.
 */
module Paths {
  import opened Strings

  type Path = seq<string>

  /** `Path.name`; the root has the empty name. */
  function Name(p: Path): string
  {
    if p == [] then "" else p[|p| - 1]
  }

  /** `Path.parent`; the root is its own parent. */
  function Parent(p: Path): Path
  {
    if p == [] then [] else p[..|p| - 1]
  }

  /** `b.is_relative_to(a)`: `a` is `b` or one of its ancestors. */
  predicate IsPrefix(a: Path, b: Path)
  {
    |a| <= |b| && b[..|a|] == a
  }

  lemma PrefixTransitive(a: Path, b: Path, c: Path)
    requires IsPrefix(a, b) && IsPrefix(b, c)
    ensures IsPrefix(a, c)
  {
    assert c[..|a|] == c[..|b|][..|a|];
  }

  /** `s.rfind(c)`: the last index holding `c`, or -1. */
  function LastIndexOf(s: string, c: char): (i: int)
    ensures -1 <= i < |s|
    ensures i >= 0 ==> s[i] == c
    ensures forall k :: i < k < |s| ==> s[k] != c
  {
    if s == [] then -1
    else if s[|s| - 1] == c then |s| - 1
    else LastIndexOf(s[..|s| - 1], c)
  }

  /**
   * `PurePath.suffix` of a file name: from the last dot to the end, provided
   * that dot is neither the first nor the last character; otherwise "".
   */
  function Suffix(name: string): (r: string)
    ensures r == [] || (2 <= |r| < |name| && r == name[|name| - |r|..] && r[0] == '.' && '.' !in r[1..])
  {
    var i := LastIndexOf(name, '.');
    if 0 < i < |name| - 1 then name[i..] else ""
  }

  /** A suffix as `pathlib` recognises one: a dot, at least one more character, no further dot. */
  predicate IsExtension(ext: string)
  {
    2 <= |ext| && ext[0] == '.' && '.' !in ext[1..]
  }

  /** A name made of a non-empty stem and an extension has exactly that extension as its suffix. */
  lemma SuffixOfStemAndExtension(stem: string, ext: string)
    requires stem != [] && IsExtension(ext)
    ensures Suffix(stem + ext) == ext
  {
    var name := stem + ext;
    var i := LastIndexOf(name, '.');
    assert name[|stem|] == '.';
    assert i >= |stem|;
    forall k | |stem| < k < |name| ensures name[k] != '.' {
      assert name[k] == ext[1..][k - |stem| - 1];
    }
    assert i == |stem|;
    assert name[i..] == ext;
  }

  /** A dot file such as `.env` has no suffix: its only dot is its first character. */
  lemma DotFileHasNoSuffix(rest: string)
    requires '.' !in rest
    ensures Suffix("." + rest) == ""
  {
    var name := "." + rest;
    var i := LastIndexOf(name, '.');
    forall k | 0 < k < |name| ensures name[k] != '.' {
      assert name[k] == rest[k - 1];
    }
    assert name[0] == '.';
    assert i == 0;
  }

  /** `str(path)` of an absolute POSIX path. */
  function Display(p: Path): string
  {
    "/" + Join(p, "/")
  }

  /** `str(PurePath(*parts))` of a relative path: "." when there are no parts. */
  function RelativeDisplay(parts: seq<string>): string
  {
    if parts == [] then "." else Join(parts, "/")
  }

  /** The longest common leading run of components of two paths. */
  function CommonPrefix(a: Path, b: Path): (r: Path)
    ensures IsPrefix(r, a) && IsPrefix(r, b)
    ensures |r| < |a| && |r| < |b| ==> a[|r|] != b[|r|]
  {
    if a == [] || b == [] || a[0] != b[0] then []
    else
      var r := [a[0]] + CommonPrefix(a[1..], b[1..]);
      assert a[..|r|] == [a[0]] + a[1..][..|r| - 1];
      assert b[..|r|] == [b[0]] + b[1..][..|r| - 1];
      r
  }

  /** `os.path.commonpath(paths)` for one or more absolute paths. */
  function CommonPath(ps: seq<Path>): (r: Path)
    requires |ps| > 0
    ensures forall i :: 0 <= i < |ps| ==> IsPrefix(r, ps[i])
  {
    if |ps| == 1 then ps[0]
    else
      var front := CommonPath(ps[..|ps| - 1]);
      var r := CommonPrefix(front, ps[|ps| - 1]);
      forall i | 0 <= i < |ps| - 1 ensures IsPrefix(r, ps[i]) {
        assert IsPrefix(front, ps[..|ps| - 1][i]);
        PrefixTransitive(r, front, ps[i]);
      }
      r
  }

  /** The common path is the deepest common ancestor: every shared ancestor is an ancestor of it. */
  lemma {:induction false} CommonPathIsDeepest(ps: seq<Path>, c: Path)
    requires |ps| > 0
    requires forall i :: 0 <= i < |ps| ==> IsPrefix(c, ps[i])
    ensures IsPrefix(c, CommonPath(ps))
  {
    if |ps| > 1 {
      var front := ps[..|ps| - 1];
      forall i | 0 <= i < |front| ensures IsPrefix(c, front[i]) {
        assert front[i] == ps[i];
      }
      CommonPathIsDeepest(front, c);
      var f := CommonPath(front);
      var last := ps[|ps| - 1];
      var r := CommonPrefix(f, last);
    }
  }

  // ---------------------------------------------------------------------
  // Ordering. Python compares strings by code point, and `Path` objects
  // by the list of their parts, element by element.
  // ---------------------------------------------------------------------

  predicate StrLess(a: string, b: string)
  {
    if a == [] then b != []
    else if b == [] then false
    else if a[0] != b[0] then a[0] < b[0]
    else StrLess(a[1..], b[1..])
  }

  lemma {:induction false} StrLessIrreflexive(a: string)
    ensures !StrLess(a, a)
  {
    if a != [] { StrLessIrreflexive(a[1..]); }
  }

  lemma {:induction false} StrLessTransitive(a: string, b: string, c: string)
    requires StrLess(a, b) && StrLess(b, c)
    ensures StrLess(a, c)
  {
    if a != [] && b != [] && c != [] && a[0] == b[0] && b[0] == c[0] {
      StrLessTransitive(a[1..], b[1..], c[1..]);
    }
  }

  lemma {:induction false} StrLessTotal(a: string, b: string)
    requires a != b
    ensures StrLess(a, b) || StrLess(b, a)
  {
    if a != [] && b != [] && a[0] == b[0] {
      assert a == [a[0]] + a[1..] && b == [b[0]] + b[1..];
      StrLessTotal(a[1..], b[1..]);
    }
  }

  predicate PathLess(p: Path, q: Path)
  {
    if p == [] then q != []
    else if q == [] then false
    else if p[0] != q[0] then StrLess(p[0], q[0])
    else PathLess(p[1..], q[1..])
  }

  lemma {:induction false} PathLessIrreflexive(p: Path)
    ensures !PathLess(p, p)
  {
    if p != [] { PathLessIrreflexive(p[1..]); }
  }

  lemma {:induction false} PathLessTransitive(p: Path, q: Path, r: Path)
    requires PathLess(p, q) && PathLess(q, r)
    ensures PathLess(p, r)
  {
    if p != [] && q != [] && r != [] {
      if p[0] == q[0] && q[0] == r[0] {
        PathLessTransitive(p[1..], q[1..], r[1..]);
      } else if p[0] != q[0] && q[0] != r[0] {
        StrLessTransitive(p[0], q[0], r[0]);
        if p[0] == r[0] { StrLessIrreflexive(p[0]); }
      } else if p[0] == q[0] {
        assert p[0] != r[0];
      }
    }
  }

  lemma {:induction false} PathLessTotal(p: Path, q: Path)
    requires p != q
    ensures PathLess(p, q) || PathLess(q, p)
  {
    if p != [] && q != [] {
      if p[0] == q[0] {
        assert p == [p[0]] + p[1..] && q == [q[0]] + q[1..];
        PathLessTotal(p[1..], q[1..]);
      } else {
        StrLessTotal(p[0], q[0]);
      }
    }
  }

  /** Sorted with no repetition: each path strictly before every later one. */
  predicate StrictlyIncreasing(ps: seq<Path>)
  {
    forall i, j :: 0 <= i < j < |ps| ==> PathLess(ps[i], ps[j])
  }

  /** A strictly increasing sequence holds no path twice. */
  lemma StrictlyIncreasingHasNoDuplicates(ps: seq<Path>)
    requires StrictlyIncreasing(ps)
    ensures forall i, j :: 0 <= i < |ps| && 0 <= j < |ps| && ps[i] == ps[j] ==> i == j
  {
    forall i, j | 0 <= i < |ps| && 0 <= j < |ps| && ps[i] == ps[j] ensures i == j {
      PathLessIrreflexive(ps[i]);
    }
  }

  /** Places `x` in a strictly increasing sequence that does not contain it. */
  function Insert(ps: seq<Path>, x: Path): (r: seq<Path>)
    ensures |r| == |ps| + 1
    ensures forall p :: p in r <==> p in ps || p == x
  {
    if ps == [] then [x]
    else if PathLess(x, ps[0]) then [x] + ps
    else [ps[0]] + Insert(ps[1..], x)
  }

  lemma {:induction false} InsertKeepsOrder(ps: seq<Path>, x: Path)
    requires StrictlyIncreasing(ps) && x !in ps
    ensures StrictlyIncreasing(Insert(ps, x))
  {
    if ps == [] {
    } else if PathLess(x, ps[0]) {
      var r := [x] + ps;
      forall i, j | 0 <= i < j < |r| ensures PathLess(r[i], r[j]) {
        if i == 0 && j > 1 { PathLessTransitive(x, ps[0], ps[j - 1]); }
      }
    } else {
      PathLessTotal(x, ps[0]);
      InsertKeepsOrder(ps[1..], x);
      var tail := Insert(ps[1..], x);
      var r := [ps[0]] + tail;
      forall i, j | 0 <= i < j < |r| ensures PathLess(r[i], r[j]) {
        if i == 0 {
          assert r[j] in tail;
        }
      }
    }
  }

  /** `sorted(paths)` of a set of paths: the strictly increasing sequence of exactly its elements. */
  method SortPaths(paths: set<Path>) returns (r: seq<Path>)
    ensures StrictlyIncreasing(r)
    ensures forall p :: p in r <==> p in paths
  {
    r := [];
    var rest := paths;
    while rest != {}
      invariant rest <= paths
      invariant StrictlyIncreasing(r)
      invariant forall p :: p in r <==> p in paths && p !in rest
      decreases rest
    {
      var x :| x in rest;
      InsertKeepsOrder(r, x);
      r := Insert(r, x);
      rest := rest - {x};
    }
  }

  /** Sorting is deterministic: two strictly increasing sequences of the same paths are equal. */
  lemma {:induction false} StrictlyIncreasingUnique(a: seq<Path>, b: seq<Path>)
    requires StrictlyIncreasing(a) && StrictlyIncreasing(b)
    requires forall p :: p in a <==> p in b
    ensures a == b
  {
    assert a != [] ==> a[0] in a;
    assert b != [] ==> b[0] in b;
    if a != [] && b != [] {
      assert b[0] in a && a[0] in b;
      if a[0] != b[0] {
        var i :| 0 <= i < |a| && a[i] == b[0];
        var j :| 0 <= j < |b| && b[j] == a[0];
        assert PathLess(a[0], b[0]);
        assert PathLess(b[0], a[0]);
        PathLessTransitive(a[0], b[0], a[0]);
        PathLessIrreflexive(a[0]);
      }
      forall p ensures p in a[1..] <==> p in b[1..] {
        if p in a[1..] {
          var k :| 1 <= k < |a| && a[k] == p;
          assert PathLess(a[0], a[k]);
          if p == a[0] { PathLessIrreflexive(p); }
          assert p in b;
          var m :| 0 <= m < |b| && b[m] == p;
          assert m != 0;
          assert b[1..][m - 1] == p;
        }
        if p in b[1..] {
          var k :| 1 <= k < |b| && b[k] == p;
          assert PathLess(b[0], b[k]);
          if p == b[0] { PathLessIrreflexive(p); }
          assert p in a;
          var m :| 0 <= m < |a| && a[m] == p;
          assert m != 0;
          assert a[1..][m - 1] == p;
        }
      }
      StrictlyIncreasingUnique(a[1..], b[1..]);
      assert a == [a[0]] + a[1..] && b == [b[0]] + b[1..];
    }
  }

  /** Every finite set of paths has a sorted rendering (built by repeated insertion). */
  lemma {:induction false} SortedSequenceExists(s: set<Path>)
    ensures exists r :: StrictlyIncreasing(r) && forall p :: p in r <==> p in s
    decreases s
  {
    if s == {} {
      var r: seq<Path> := [];
      assert StrictlyIncreasing(r) && forall p :: p in r <==> p in s;
    } else {
      var x :| x in s;
      SortedSequenceExists(s - {x});
      var r :| StrictlyIncreasing(r) && forall p :: p in r <==> p in s - {x};
      InsertKeepsOrder(r, x);
      var t := Insert(r, x);
      assert StrictlyIncreasing(t) && forall p :: p in t <==> p in s;
    }
  }

  /** The value of `sorted(s)`: the one strictly increasing sequence holding exactly the paths of `s`. */
  ghost function SortedOf(s: set<Path>): (r: seq<Path>)
    ensures StrictlyIncreasing(r) && forall p :: p in r <==> p in s
  {
    SortedSequenceExists(s);
    var r :| StrictlyIncreasing(r) && forall p :: p in r <==> p in s;
    r
  }
}
