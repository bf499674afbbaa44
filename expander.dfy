/**
 * `expand_input_paths`: every argument is sanitised, expanded and
 * resolved; a file argument is collected as it is, a directory argument is
 * walked top-down with excluded subdirectory names pruned before the walk
 * descends into them, and the collected set is returned sorted.
 */
module TreeExpander {
  import opened Strings
  import opened Paths
  import opened Config
  import opened FileSystem
  import opened Sanitizer

  /**
   * A directory that a walk from `top` enters: `top` itself, or a
   * directory below it none of whose names below `top` is excluded.
   */
  predicate WalkableDir(fs: Tree, top: Path, d: Path)
  {
    && IsDir(fs, d)
    && IsPrefix(top, d)
    && forall k :: |top| <= k < |d| ==> d[k] !in EXCLUDED_DIRECTORIES
  }

  /** A file that `os.walk(top)` lists: one that sits directly in a walkable directory. */
  predicate WalkedFile(fs: Tree, top: Path, f: Path)
  {
    IsFile(fs, f) && f != [] && WalkableDir(fs, top, Parent(f))
  }

  function WalkableDirs(fs: Tree, top: Path): set<Path>
  {
    set d | d in fs && WalkableDir(fs, top, d)
  }

  function WalkedFiles(fs: Tree, top: Path): set<Path>
  {
    set f | f in fs && WalkedFile(fs, top, f)
  }

  /** The subdirectories `os.walk` reports for `d`, after the pruning assignment to `directories[:]`. */
  function KeptSubdirectories(fs: Tree, d: Path): set<Path>
  {
    set c | c in fs && IsChild(c, d) && fs[c].Dir? && Name(c) !in EXCLUDED_DIRECTORIES
  }

  /** The file names `os.walk` reports for `d`, joined onto `d`. */
  function FilesIn(fs: Tree, d: Path): set<Path>
  {
    set f | f in fs && IsChild(f, d) && fs[f].File?
  }

  lemma ChildIsWalkable(fs: Tree, top: Path, d: Path, c: Path)
    requires WalkableDir(fs, top, d) && c in KeptSubdirectories(fs, d)
    ensures WalkableDir(fs, top, c)
  {
    assert c[..|top|] == c[..|d|][..|top|];
    forall k | |top| <= k < |c| ensures c[k] !in EXCLUDED_DIRECTORIES {
      if k < |d| { assert c[k] == c[..|d|][k]; }
    }
  }

  /** Every walkable directory is reached from a set of seen directories closed under kept subdirectories. */
  lemma {:induction false} AllWalkableSeen(fs: Tree, top: Path, seen: set<Path>, d: Path)
    requires WellFormed(fs)
    requires top in seen
    requires forall e, c :: e in seen && c in KeptSubdirectories(fs, e) ==> c in seen
    requires WalkableDir(fs, top, d)
    ensures d in seen
    decreases |d|
  {
    if |d| > |top| {
      var e := Parent(d);
      assert d != [];
      assert e in fs && fs[e].Dir?;
      assert e[..|top|] == d[..|top|];
      assert forall k :: |top| <= k < |e| ==> e[k] == d[k];
      AllWalkableSeen(fs, top, seen, e);
      assert d[..|e|] == e;
      assert d in KeptSubdirectories(fs, e);
    } else {
      assert d == d[..|top|];
    }
  }

  /**
   * `for root, directories, filenames in os.walk(top)`: a worklist of
   * directories still to be listed; listing one adds its files and queues
   * its kept subdirectories.
   */
  method Walk(fs: Tree, top: Path) returns (found: set<Path>)
    requires WellFormed(fs) && IsDir(fs, top)
    ensures found == WalkedFiles(fs, top)
  {
    var work: set<Path> := {top};
    var seen: set<Path> := {};
    found := {};
    while work != {}
      invariant work <= WalkableDirs(fs, top) && seen <= WalkableDirs(fs, top)
      invariant work !! seen
      invariant top in work + seen
      invariant forall e, c :: e in seen && c in KeptSubdirectories(fs, e) ==> c in work + seen
      invariant found == set f | f in fs && fs[f].File? && f != [] && Parent(f) in seen
      decreases WalkableDirs(fs, top) - seen
    {
      var d :| d in work;
      var subdirectories := KeptSubdirectories(fs, d);
      var files := FilesIn(fs, d);
      forall c | c in subdirectories ensures c in WalkableDirs(fs, top) {
        ChildIsWalkable(fs, top, d, c);
      }
      assert files == set f | f in fs && fs[f].File? && f != [] && Parent(f) == d;
      found := found + files;
      seen := seen + {d};
      work := (work - {d}) + (subdirectories - seen);
    }
    forall d | d in WalkableDirs(fs, top) ensures d in seen {
      AllWalkableSeen(fs, top, seen, d);
    }
    assert seen == WalkableDirs(fs, top);
  }

  /** What one argument adds to the collected set. */
  predicate Contributes(fs: Tree, resolver: Resolver, argument: string, p: Path)
  {
    var sanitized := SanitizeArgument(argument);
    && sanitized != ""
    && var path := ExpandAndResolve(resolver, sanitized);
       && path in fs
       && if fs[path].File? then p == path else WalkedFile(fs, path, p)
  }

  function ArgumentFiles(fs: Tree, resolver: Resolver, argument: string): set<Path>
  {
    set p | p in fs && Contributes(fs, resolver, argument, p)
  }

  /** `ArgumentFiles` of one filesystem and resolver, as a function of the argument. */
  function FilesOfArgument(fs: Tree, resolver: Resolver): string -> set<Path>
  {
    argument => ArgumentFiles(fs, resolver, argument)
  }

  /** The union of `files(a)` over the arguments `a`, accumulated left to right. */
  function UnionOver(arguments: seq<string>, files: string -> set<Path>): set<Path>
  {
    if arguments == [] then {}
    else UnionOver(arguments[..|arguments| - 1], files) + files(arguments[|arguments| - 1])
  }

  lemma {:induction false} UnionOverMembership(arguments: seq<string>, files: string -> set<Path>, p: Path)
    ensures p in UnionOver(arguments, files) <==> exists k :: 0 <= k < |arguments| && p in files(arguments[k])
  {
    if arguments != [] {
      var front := arguments[..|arguments| - 1];
      UnionOverMembership(front, files, p);
      if exists k :: 0 <= k < |arguments| && p in files(arguments[k]) {
        var k :| 0 <= k < |arguments| && p in files(arguments[k]);
        if k < |front| {
          assert front[k] == arguments[k];
        }
      }
      if p in UnionOver(front, files) {
        var k :| 0 <= k < |front| && p in files(front[k]);
        assert arguments[k] == front[k];
      }
    }
  }

  /** One more argument adds its own files to what the earlier ones collected. */
  lemma CollectStep(fs: Tree, resolver: Resolver, arguments: seq<string>, i: nat, collected: set<Path>, added: set<Path>)
    requires i < |arguments|
    requires collected == Collected(fs, resolver, arguments[..i])
    requires added == ArgumentFiles(fs, resolver, arguments[i])
    ensures collected + added == Collected(fs, resolver, arguments[..i + 1])
  {
    assert arguments[..i + 1][..i] == arguments[..i];
  }

  /** `collected_files` after the given arguments. */
  function Collected(fs: Tree, resolver: Resolver, arguments: seq<string>): set<Path>
  {
    UnionOver(arguments, FilesOfArgument(fs, resolver))
  }

  /** A path is collected exactly when some argument contributes it. */
  lemma CollectedMembership(fs: Tree, resolver: Resolver, arguments: seq<string>, p: Path)
    ensures p in Collected(fs, resolver, arguments)
            <==> exists k :: 0 <= k < |arguments| && p in ArgumentFiles(fs, resolver, arguments[k])
  {
    UnionOverMembership(arguments, FilesOfArgument(fs, resolver), p);
  }

  lemma FileArgumentFiles(fs: Tree, resolver: Resolver, argument: string, path: Path)
    requires SanitizeArgument(argument) != "" && path == ExpandAndResolve(resolver, SanitizeArgument(argument))
    requires IsFile(fs, path)
    ensures ArgumentFiles(fs, resolver, argument) == {path}
  {
  }

  lemma DirectoryArgumentFiles(fs: Tree, resolver: Resolver, argument: string, path: Path)
    requires SanitizeArgument(argument) != "" && path == ExpandAndResolve(resolver, SanitizeArgument(argument))
    requires IsDir(fs, path)
    ensures ArgumentFiles(fs, resolver, argument) == WalkedFiles(fs, path)
  {
  }

  /** The candidate list: the collected set in `Path` order. */
  ghost function CandidateList(fs: Tree, resolver: Resolver, arguments: seq<string>): seq<Path>
  {
    SortedOf(Collected(fs, resolver, arguments))
  }

  method ExpandInputPaths(fs: Tree, resolver: Resolver, arguments: seq<string>) returns (r: seq<Path>)
    requires WellFormed(fs)
    ensures StrictlyIncreasing(r)
    ensures forall p :: p in r <==> p in Collected(fs, resolver, arguments)
    ensures r == CandidateList(fs, resolver, arguments)
  {
    var collected: set<Path> := {};
    for i := 0 to |arguments|
      invariant collected == Collected(fs, resolver, arguments[..i])
    {
      // The source leaves each case with `continue`; here each case sets what the argument adds.
      var added: set<Path> := {};
      var sanitized := SanitizeArgument(arguments[i]);
      if sanitized == "" {
        EmptyOrMissingContributesNothing(fs, resolver, arguments[i]);
      } else {
        var path := ExpandAndResolve(resolver, sanitized);
        if path !in fs {
          EmptyOrMissingContributesNothing(fs, resolver, arguments[i]);
        } else if fs[path].File? {
          FileArgumentFiles(fs, resolver, arguments[i], path);
          added := {path};
        } else {
          added := Walk(fs, path);
          DirectoryArgumentFiles(fs, resolver, arguments[i], path);
        }
      }
      CollectStep(fs, resolver, arguments, i, collected, added);
      collected := collected + added;
    }
    assert arguments[..|arguments|] == arguments;
    r := SortPaths(collected);
    StrictlyIncreasingUnique(r, CandidateList(fs, resolver, arguments));
  }

  /** Only files are collected: a directory is walked, never listed itself. */
  lemma CandidatesAreFiles(fs: Tree, resolver: Resolver, arguments: seq<string>, p: Path)
    requires p in Collected(fs, resolver, arguments)
    ensures IsFile(fs, p)
  {
    CollectedMembership(fs, resolver, arguments, p);
  }

  /** A file argument is always a candidate, however it was quoted. */
  lemma FileArgumentIsCandidate(fs: Tree, resolver: Resolver, arguments: seq<string>, k: nat)
    requires k < |arguments| && SanitizeArgument(arguments[k]) != ""
    requires IsFile(fs, ExpandAndResolve(resolver, SanitizeArgument(arguments[k])))
    ensures ExpandAndResolve(resolver, SanitizeArgument(arguments[k])) in Collected(fs, resolver, arguments)
  {
    var path := ExpandAndResolve(resolver, SanitizeArgument(arguments[k]));
    FileArgumentFiles(fs, resolver, arguments[k], path);
    CollectedMembership(fs, resolver, arguments, path);
  }

  /** An empty, blank or dangling argument contributes nothing. */
  lemma EmptyOrMissingContributesNothing(fs: Tree, resolver: Resolver, argument: string)
    requires SanitizeArgument(argument) == "" || ExpandAndResolve(resolver, SanitizeArgument(argument)) !in fs
    ensures ArgumentFiles(fs, resolver, argument) == {}
  {
  }

  /** Below a walked directory, nothing is collected from under a subdirectory with an excluded name. */
  lemma ExcludedSubdirectoryPruned(fs: Tree, top: Path, f: Path, k: nat)
    requires |top| <= k < |f| - 1 && f[k] in EXCLUDED_DIRECTORIES
    ensures f !in WalkedFiles(fs, top)
  {
  }

  /** The walked directory itself may carry an excluded name: its own files are still collected. */
  lemma TopIsNeverPruned(fs: Tree, top: Path, f: Path)
    requires IsDir(fs, top) && IsFile(fs, f) && IsChild(f, top)
    ensures f in WalkedFiles(fs, top)
  {
    assert Parent(f) == top;
  }

  /** A file directly inside a folder argument is collected, whatever the folder's own name. */
  lemma FolderArgumentFileIsCandidate(fs: Tree, resolver: Resolver, arguments: seq<string>, k: nat, f: Path)
    requires k < |arguments| && SanitizeArgument(arguments[k]) != ""
    requires IsDir(fs, ExpandAndResolve(resolver, SanitizeArgument(arguments[k])))
    requires IsFile(fs, f) && IsChild(f, ExpandAndResolve(resolver, SanitizeArgument(arguments[k])))
    ensures f in Collected(fs, resolver, arguments)
  {
    var top := ExpandAndResolve(resolver, SanitizeArgument(arguments[k]));
    TopIsNeverPruned(fs, top, f);
    DirectoryArgumentFiles(fs, resolver, arguments[k], top);
    CollectedMembership(fs, resolver, arguments, f);
  }

  /** The candidates depend only on which arguments were given, not on their order or repetition. */
  lemma ArgumentOrderIrrelevant(fs: Tree, resolver: Resolver, a: seq<string>, b: seq<string>)
    requires forall x :: x in a <==> x in b
    ensures Collected(fs, resolver, a) == Collected(fs, resolver, b)
    ensures CandidateList(fs, resolver, a) == CandidateList(fs, resolver, b)
  {
    UnionOverSameMembers(a, b, FilesOfArgument(fs, resolver));
  }

  /** A union over the members of a sequence depends only on which members it has. */
  lemma UnionOverSameMembers(a: seq<string>, b: seq<string>, files: string -> set<Path>)
    requires forall x :: x in a <==> x in b
    ensures UnionOver(a, files) == UnionOver(b, files)
  {
    forall p ensures p in UnionOver(a, files) ==> p in UnionOver(b, files) {
      UnionOverMembership(a, files, p);
      UnionOverMembership(b, files, p);
      if p in UnionOver(a, files) {
        var k :| 0 <= k < |a| && p in files(a[k]);
        assert a[k] in b;
        var j :| 0 <= j < |b| && b[j] == a[k];
      }
    }
    forall p ensures p in UnionOver(b, files) ==> p in UnionOver(a, files) {
      UnionOverMembership(a, files, p);
      UnionOverMembership(b, files, p);
      if p in UnionOver(b, files) {
        var k :| 0 <= k < |b| && p in files(b[k]);
        assert b[k] in a;
        var j :| 0 <= j < |a| && a[j] == b[k];
      }
    }
  }

  /**
   * A file named directly by argument `k` and also found by walking the
   * folder named by argument `m` appears in the candidate list exactly once.
   */
  lemma ListedOnce(fs: Tree, resolver: Resolver, arguments: seq<string>, k: nat, m: nat)
    requires k < |arguments| && SanitizeArgument(arguments[k]) != ""
    requires IsFile(fs, ExpandAndResolve(resolver, SanitizeArgument(arguments[k])))
    requires m < |arguments| && SanitizeArgument(arguments[m]) != ""
    requires IsDir(fs, ExpandAndResolve(resolver, SanitizeArgument(arguments[m])))
    requires IsChild(ExpandAndResolve(resolver, SanitizeArgument(arguments[k])),
                     ExpandAndResolve(resolver, SanitizeArgument(arguments[m])))
    ensures var f := ExpandAndResolve(resolver, SanitizeArgument(arguments[k]));
      var r := CandidateList(fs, resolver, arguments);
      && f in r
      && forall i, j :: 0 <= i < |r| && 0 <= j < |r| && r[i] == f && r[j] == f ==> i == j
  {
    var f := ExpandAndResolve(resolver, SanitizeArgument(arguments[k]));
    FileArgumentIsCandidate(fs, resolver, arguments, k);
    StrictlyIncreasingHasNoDuplicates(CandidateList(fs, resolver, arguments));
  }
}
