/**
 * The `FolderTextMerger` entry point: the same helpers and gates as
 * `Folder2Text`, but the loop keeps no lists and writes no summary, and the
 * default output is placed inside the base directory.
 */
module FolderTextMerger {
  import opened Wrappers
  import opened Paths
  import opened Config
  import opened FileSystem
  import opened Classifier
  import opened EncodingReader
  import opened TreeExpander
  import opened Pipeline
  import Folder2Text

  const APP_NAME: string := "FolderTextMerger"
  const VERSION: string := "1.0.4"
  const COPYRIGHT: string := "Copyright (c) 2026 FolderTextMerger. All rights reserved."

  /** `-o` resolved, or `output-<base name>-<stamp>.txt` inside the base directory. */
  function OutputFile(resolver: Resolver, base: Path, output: Option<string>, stamp: string): Path
  {
    match output
    case Some(o) => resolver.resolve(o)
    case None => base + [OutputName(Name(base), stamp)]
  }

  /**
   * The default output sits directly inside the base directory of the
   * candidates, which exists, and is named so that every later run skips it.
   */
  lemma DefaultOutputInsideBase(fs: Tree, files: seq<Path>, resolver: Resolver, stamp: string)
    requires WellFormed(fs) && |files| > 0 && AllFiles(fs, files) && StrictlyIncreasing(files)
    ensures var base := BaseDirectory(files);
      var out := OutputFile(resolver, base, None, stamp);
      && Parent(out) == base && IsDir(fs, base)
      && Name(out) == OutputName(Name(base), stamp)
      && IsPreviousOutput(out)
      && forall info, codecs, mb :: Classify(out, info, codecs, mb) == Exclude(PreviousOutput)
  {
    var base := BaseDirectory(files);
    var out := OutputFile(resolver, base, None, stamp);
    assert Parent(out) == base;
    BaseDirectoryIsDir(fs, files);
    OutputNameIsPreviousOutput(out, Name(base), stamp);
  }

  /** The loop of `main`: each file through the gates, the block of each one that passes them all written in turn. */
  method Merge(fs: Tree, codecs: Codecs, files: seq<Path>, base: Path, maxSizeMb: int) returns (document: string)
    requires AllFiles(fs, files)
    ensures Judged(RunVerdicts(fs, codecs, maxSizeMb), files)
    ensures document == MergedBlocks(files, RunVerdicts(fs, codecs, maxSizeMb), base)
  {
    RunVerdictsJudgeFiles(fs, codecs, maxSizeMb, files);
    ghost var verdict := RunVerdicts(fs, codecs, maxSizeMb);
    document := "";
    for i := 0 to |files|
      invariant Judged(verdict, files[..i])
      invariant document == MergedBlocks(files[..i], verdict, base)
    {
      var file := files[i];
      var v := JudgeFile(file, fs[file].info, codecs, maxSizeMb);
      assert v == verdict(file);
      assert files[..i + 1][..i] == files[..i] && files[..i + 1][i] == file;
      if v.Include? {
        document := document + Block(RelativeName(base, file), v.text);
      }
    }
    assert files[..|files|] == files;
  }

  /** The blocks a run with candidates writes: nothing else goes into the document. */
  ghost function MergedDocument(env: Environment, arguments: seq<string>, maxSizeMb: int): string
  {
    var selected := CandidateList(env.fs, env.resolver, arguments);
    if selected == [] then ""
    else
      Folder2Text.CandidateListAreFiles(env.fs, env.resolver, arguments);
      RunVerdictsJudgeFiles(env.fs, env.codecs, maxSizeMb, selected);
      MergedBlocks(selected, RunVerdicts(env.fs, env.codecs, maxSizeMb), BaseDirectory(selected))
  }

  /** The whole run, stamped with the clock reading `clock`. */
  ghost function RunOutcome(env: Environment, arguments: seq<string>, output: Option<string>, maxSizeMb: int,
                            clock: DateTime): Outcome
  {
    if arguments == [] then BadArguments
    else
      var selected := CandidateList(env.fs, env.resolver, arguments);
      if selected == [] then NoFiles
      else
        var outputFile := OutputFile(env.resolver, BaseDirectory(selected), output, CompactStamp(clock));
        Replace(env.fs, outputFile, MergedDocument(env, arguments, maxSizeMb))
  }

  /** `main`, from the parsed arguments to the outcome. */
  method Run(env: Environment, arguments: seq<string>, output: Option<string>, maxSizeMb: int,
             clock: DateTime) returns (outcome: Outcome)
    requires WellFormed(env.fs)
    ensures outcome == RunOutcome(env, arguments, output, maxSizeMb, clock)
  {
    if arguments == [] {
      return BadArguments;
    }
    var selected := ExpandInputPaths(env.fs, env.resolver, arguments);
    if selected == [] {
      return NoFiles;
    }
    var base := BaseDirectory(selected);
    var outputFile := OutputFile(env.resolver, base, output, CompactStamp(clock));
    Folder2Text.CandidateListAreFiles(env.fs, env.resolver, arguments);
    var document := Merge(env.fs, env.codecs, selected, base, maxSizeMb);
    outcome := Replace(env.fs, outputFile, document);
  }

  /** The exit code is 2 exactly when no argument contributes a file. */
  lemma NoCandidatesIsExitTwo(env: Environment, arguments: seq<string>, output: Option<string>, maxSizeMb: int,
                              clock: DateTime)
    requires arguments != []
    ensures ExitCode(RunOutcome(env, arguments, output, maxSizeMb, clock)) == EXIT_NO_FILES
            <==> Collected(env.fs, env.resolver, arguments) == {}
  {
    var outcome := RunOutcome(env, arguments, output, maxSizeMb, clock);
    Folder2Text.NoCandidatesIffNothingCollected(env.fs, env.resolver, arguments);
    if Collected(env.fs, env.resolver, arguments) != {} {
      Folder2Text.ExitCodeOfFinish(outcome);
    }
  }

  /**
   * In a tree with no directory named like an output, a run with the
   * default output that finds candidates always publishes its document,
   * inside the base directory.
   */
  lemma DefaultRunPublishes(env: Environment, arguments: seq<string>, maxSizeMb: int, clock: DateTime)
    requires WellFormed(env.fs) && arguments != []
    requires forall p :: IsDir(env.fs, p) ==> !IsPreviousOutput(p)
    requires Collected(env.fs, env.resolver, arguments) != {}
    ensures var outcome := RunOutcome(env, arguments, None, maxSizeMb, clock);
      && outcome.Published?
      && Parent(outcome.outputFile) == BaseDirectory(CandidateList(env.fs, env.resolver, arguments))
  {
    var selected := CandidateList(env.fs, env.resolver, arguments);
    Folder2Text.NoCandidatesIffNothingCollected(env.fs, env.resolver, arguments);
    Folder2Text.CandidateListAreFiles(env.fs, env.resolver, arguments);
    SortedOfIsSorted(env.fs, env.resolver, arguments);
    var stamp := CompactStamp(clock);
    DefaultOutputInsideBase(env.fs, selected, env.resolver, stamp);
    var out := OutputFile(env.resolver, BaseDirectory(selected), None, stamp);
    assert out != [] && IsDir(env.fs, Parent(out));
    assert !IsDir(env.fs, out);
  }

  lemma SortedOfIsSorted(fs: Tree, resolver: Resolver, arguments: seq<string>)
    ensures StrictlyIncreasing(CandidateList(fs, resolver, arguments))
  {
  }

  /** A published document holds the blocks of the files that pass every gate, in sorted order, and nothing else. */
  lemma OnlyPassingFilesWritten(env: Environment, arguments: seq<string>, output: Option<string>, maxSizeMb: int,
                                clock: DateTime)
    requires RunOutcome(env, arguments, output, maxSizeMb, clock).Published?
    ensures var selected := CandidateList(env.fs, env.resolver, arguments);
      var verdict := RunVerdicts(env.fs, env.codecs, maxSizeMb);
      && Judged(verdict, selected)
      && Judged(verdict, IncludedFiles(selected, verdict))
      && StrictlyIncreasing(IncludedFiles(selected, verdict))
      && RunOutcome(env, arguments, output, maxSizeMb, clock).document
         == MergedBlocks(IncludedFiles(selected, verdict), verdict, BaseDirectory(selected))
  {
    var selected := CandidateList(env.fs, env.resolver, arguments);
    Folder2Text.CandidateListAreFiles(env.fs, env.resolver, arguments);
    RunVerdictsJudgeFiles(env.fs, env.codecs, maxSizeMb, selected);
    var verdict := RunVerdicts(env.fs, env.codecs, maxSizeMb);
    SortedOfIsSorted(env.fs, env.resolver, arguments);
    IncludedInOrder(selected, verdict);
    OnlyIncludedFilesWrite(selected, verdict, BaseDirectory(selected));
  }

  /**
   * On the same inputs, the `Folder2Text` document is exactly the
   * `FolderTextMerger` document followed by the extraction summary.
   */
  lemma SameBlocksAsFolder2Text(env: Environment, arguments: seq<string>, outputFile: Path, maxSizeMb: int,
                                summaryClock: DateTime)
    ensures Folder2Text.RunDocument(env, arguments, outputFile, maxSizeMb, summaryClock)
            == MergedDocument(env, arguments, maxSizeMb)
               + Folder2Text.RunSummary(env, arguments, outputFile, maxSizeMb, summaryClock)
  {
  }
}
