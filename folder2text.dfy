/**
 * The `Folder2Text` entry point: expand the arguments, merge the accepted
 * files into one document while recording every verdict, append the
 * extraction summary, and move the document to its output path, which by
 * default sits one level above the folder the user clicked on.
 */
module Folder2Text {
  import opened Wrappers
  import opened Strings
  import opened Paths
  import opened Config
  import opened FileSystem
  import opened Sanitizer
  import opened Classifier
  import opened EncodingReader
  import opened TreeExpander
  import opened Pipeline

  const APP_NAME: string := "Folder2Text"
  const VERSION: string := "1.0.9"
  const COPYRIGHT: string := "Copyright (c) 2026 Folder2Text. All rights reserved."

  // ---------------------------------------------------------------------
  // The output path
  // ---------------------------------------------------------------------

  /** The default output for the path the user clicked on: beside a folder, or beside the folder that holds a file. */
  function DefaultOutputFile(fs: Tree, clicked: Path, stamp: string): Path
  {
    if IsDir(fs, clicked) then Parent(clicked) + [OutputName(Name(clicked), stamp)]
    else Parent(Parent(clicked)) + [OutputName(Name(Parent(clicked)), stamp)]
  }

  /** The output path as the source computes it: `-o` resolved, or the first argument resolved exactly as it was typed. */
  function OutputFileAsWritten(fs: Tree, resolver: Resolver, arguments: seq<string>, output: Option<string>, stamp: string): Path
    requires |arguments| > 0
  {
    match output
    case Some(o) => resolver.resolve(o)
    case None => DefaultOutputFile(fs, resolver.resolve(arguments[0]), stamp)
  }

  /** The output path with the first argument cleaned up, expanded and resolved the way the expander treats it. */
  function OutputFile(fs: Tree, resolver: Resolver, arguments: seq<string>, output: Option<string>, stamp: string): Path
    requires |arguments| > 0
  {
    match output
    case Some(o) => resolver.resolve(o)
    case None => DefaultOutputFile(fs, ExpandAndResolve(resolver, SanitizeArgument(arguments[0])), stamp)
  }

  /** A clicked folder gets its output in its parent, named after it, outside the folder itself. */
  lemma DefaultOutputBesideFolder(fs: Tree, clicked: Path, stamp: string)
    requires IsDir(fs, clicked) && clicked != []
    ensures var out := DefaultOutputFile(fs, clicked, stamp);
      && Parent(out) == Parent(clicked) && Name(out) == OutputName(Name(clicked), stamp)
      && IsPreviousOutput(out) && !IsPrefix(clicked, out)
  {
    var out := DefaultOutputFile(fs, clicked, stamp);
    assert Parent(out) == Parent(clicked);
    OutputNameIsPreviousOutput(out, Name(clicked), stamp);
    assert |OutputName(Name(clicked), stamp)| > |Name(clicked)|;
    assert out[|out| - 1] != clicked[|clicked| - 1];
  }

  /** A clicked file gets its output one level above the folder holding it, named after that folder. */
  lemma DefaultOutputBesideFileFolder(fs: Tree, clicked: Path, stamp: string)
    requires IsFile(fs, clicked) && |clicked| >= 2
    ensures var out := DefaultOutputFile(fs, clicked, stamp);
      && Parent(out) == Parent(Parent(clicked)) && Name(out) == OutputName(Name(Parent(clicked)), stamp)
      && IsPreviousOutput(out) && !IsPrefix(Parent(clicked), out)
  {
    var out := DefaultOutputFile(fs, clicked, stamp);
    var folder := Parent(clicked);
    assert Parent(out) == Parent(folder);
    OutputNameIsPreviousOutput(out, Name(folder), stamp);
    assert |OutputName(Name(folder), stamp)| > |Name(folder)|;
    assert out[|out| - 1] != folder[|folder| - 1];
  }

  /**
   * In a tree with no directory named like an output, the default output
   * for a clicked entry that exists can be published: its directory exists,
   * and it is not a directory itself.
   */
  lemma DefaultOutputFilePublishable(fs: Tree, clicked: Path, stamp: string)
    requires WellFormed(fs) && clicked in fs
    requires forall p :: IsDir(fs, p) ==> !IsPreviousOutput(p)
    ensures CanPublish(fs, DefaultOutputFile(fs, clicked, stamp))
  {
    var out := DefaultOutputFile(fs, clicked, stamp);
    if IsDir(fs, clicked) {
      OutputNameIsPreviousOutput(out, Name(clicked), stamp);
    } else {
      assert clicked != [];
      assert IsDir(fs, Parent(clicked));
      OutputNameIsPreviousOutput(out, Name(Parent(clicked)), stamp);
    }
    assert Parent(out) == out[..|out| - 1];
  }

  /**
   * The corrected default output of a first argument that names an existing
   * entry, however it was quoted, can always be published.
   */
  lemma DefaultOutputPublishable(fs: Tree, resolver: Resolver, arguments: seq<string>, stamp: string)
    requires WellFormed(fs) && |arguments| > 0
    requires ExpandAndResolve(resolver, SanitizeArgument(arguments[0])) in fs
    requires forall p :: IsDir(fs, p) ==> !IsPreviousOutput(p)
    ensures CanPublish(fs, OutputFile(fs, resolver, arguments, None, stamp))
  {
    DefaultOutputFilePublishable(fs, ExpandAndResolve(resolver, SanitizeArgument(arguments[0])), stamp);
  }

  /** The default output as the source computes it can be published when the first argument, resolved as typed, exists. */
  lemma DefaultOutputPublishableAsWritten(fs: Tree, resolver: Resolver, arguments: seq<string>, stamp: string)
    requires WellFormed(fs) && |arguments| > 0
    requires resolver.resolve(arguments[0]) in fs
    requires forall p :: IsDir(fs, p) ==> !IsPreviousOutput(p)
    ensures CanPublish(fs, OutputFileAsWritten(fs, resolver, arguments, None, stamp))
  {
    DefaultOutputFilePublishable(fs, resolver.resolve(arguments[0]), stamp);
  }

  /** The folder of the example, as the user meant it. */
  const EXAMPLE_FOLDER: string := "/data/proj"

  /** The same folder as a drag-and-drop hands it over, wrapped in double quotes. */
  const QUOTED_FOLDER: string := "\"" + EXAMPLE_FOLDER + "\""

  /** A tree with one folder `/data/proj` holding one file. */
  function ExampleTree(): Tree
  {
    map[[] := Dir, ["data"] := Dir, ["data", "proj"] := Dir,
        ["data", "proj", "notes.md"] := File(FileInfo([], true, None))]
  }

  /**
   * Path resolution from the working directory `/Users`: the quoted folder
   * is a relative path whose first component is the quote.
   */
  function ExampleResolver(): Resolver
  {
    Resolver(s => s, s => if s == EXAMPLE_FOLDER then ["data", "proj"] else ["Users", "\"", "data", "proj\""])
  }

  lemma ExampleTreeWellFormed()
    ensures WellFormed(ExampleTree())
  {
    var fs := ExampleTree();
    forall p | p in fs && p != [] ensures Parent(p) in fs && fs[Parent(p)].Dir? {
      if p == ["data"] {
        assert Parent(p) == [];
      } else if p == ["data", "proj"] {
        assert Parent(p) == ["data"];
      } else {
        assert p == ["data", "proj", "notes.md"];
        assert Parent(p) == ["data", "proj"];
      }
    }
  }

  /** The expander reads the quoted folder as the folder itself, which is a directory of the tree. */
  lemma QuotedFolderWalked()
    ensures SanitizeArgument(QUOTED_FOLDER) == EXAMPLE_FOLDER
    ensures IsDir(ExampleTree(), ExpandAndResolve(ExampleResolver(), SanitizeArgument(QUOTED_FOLDER)))
  {
    QuotedFolderSanitized();
    ExampleFolderResolved();
  }

  lemma QuotedFolderSanitized()
    ensures SanitizeArgument(QUOTED_FOLDER) == EXAMPLE_FOLDER
  {
    ExampleFolderIsPlain();
    DoubleQuotedPlainPath(EXAMPLE_FOLDER);
  }

  lemma ExampleFolderResolved()
    ensures ExpandAndResolve(ExampleResolver(), EXAMPLE_FOLDER) == ["data", "proj"]
    ensures IsDir(ExampleTree(), ["data", "proj"])
  {
  }

  lemma ExampleFolderIsPlain()
    ensures IsPlainPath(EXAMPLE_FOLDER)
  {
    assert EXAMPLE_FOLDER[0] == '/' && EXAMPLE_FOLDER[9] == 'j';
    assert '/' !in WHITESPACE && 'j' !in WHITESPACE;
  }

  /** Resolved as typed, the quoted folder is no entry of the tree. */
  lemma QuotedFolderResolvedAsTyped()
    ensures ExampleResolver().resolve(QUOTED_FOLDER) == ["Users", "\"", "data", "proj\""]
    ensures !IsDir(ExampleTree(), ["Users", "\"", "data", "proj\""])
    ensures !IsDir(ExampleTree(), ["Users", "\""])
  {
    assert |QUOTED_FOLDER| != |EXAMPLE_FOLDER|;
    assert |"Users"| != |"data"|;
  }

  /**
   * The quoted folder `"/data/proj"` is walked, because the expander
   * strips the quotes, but the default output is computed from the quoted
   * text: its directory `/Users/"` does not exist and the final move fails,
   * while the output computed from the cleaned argument can be published.
   */
  lemma QuotedFolderOutputAsWritten(stamp: string, tempName: string, document: string)
    ensures var fs, resolver, arguments := ExampleTree(), ExampleResolver(), [QUOTED_FOLDER];
      && IsDir(fs, ExpandAndResolve(resolver, SanitizeArgument(arguments[0])))
      && !CanPublish(fs, OutputFileAsWritten(fs, resolver, arguments, None, stamp))
      && Move(fs, OutputFileAsWritten(fs, resolver, arguments, None, stamp), tempName, document) == Crashed
      && CanPublish(fs, OutputFile(fs, resolver, arguments, None, stamp))
  {
    var fs, resolver, arguments := ExampleTree(), ExampleResolver(), [QUOTED_FOLDER];
    QuotedFolderWalked();
    QuotedFolderResolvedAsTyped();
    var asWritten := OutputFileAsWritten(fs, resolver, arguments, None, stamp);
    ShortPaths("Users", "\"", "data", "proj\"");
    assert asWritten == ["Users", "\""] + [OutputName("data", stamp)];
    ShortPaths("Users", "\"", OutputName("data", stamp), "");
    assert asWritten[0] == "Users" && |asWritten| == 3;
    NotInExampleTreeUnderUsers(asWritten);
    ExampleTreeWellFormed();
    OutputNameOutsideExample(stamp);
  }

  lemma NotInExampleTreeUnderUsers(p: Path)
    requires |p| == 3 && p[0] == "Users"
    ensures p !in ExampleTree()
  {
    assert |"Users"| != |"data"|;
  }

  /** The corrected output `/data/output-proj-<stamp>.txt` can be moved into place. */
  lemma OutputNameOutsideExample(stamp: string)
    ensures CanPublish(ExampleTree(), OutputFile(ExampleTree(), ExampleResolver(), [QUOTED_FOLDER], None, stamp))
  {
    QuotedFolderWalked();
    var corrected := OutputFile(ExampleTree(), ExampleResolver(), [QUOTED_FOLDER], None, stamp);
    var name := OutputName("proj", stamp);
    ShortPaths("data", "proj", name, "");
    assert corrected == ["data"] + [name];
    assert |name| > |"proj"|;
    assert corrected[1] != "proj" && |corrected| == 2 && corrected[0] == "data";
    NotInExampleTree(corrected);
    ExampleDataIsDir();
  }

  lemma NotInExampleTree(p: Path)
    requires |p| == 2 && p[1] != "proj"
    ensures p !in ExampleTree()
  {
    assert p != ["data", "proj"] by { assert ["data", "proj"][1] == "proj"; }
  }

  lemma ExampleDataIsDir()
    ensures IsDir(ExampleTree(), ["data"])
  {
  }

  /** Parents and names of short literal paths. */
  lemma ShortPaths(a: string, b: string, c: string, d: string)
    ensures Parent(Parent([a, b, c, d])) == [a, b] && Name(Parent([a, b, c, d])) == c
    ensures Parent([a, b]) == [a] && Name([a, b]) == b
    ensures Parent([a, b] + [c]) == [a, b] && [a] + [c] == [a, c] && Parent([a, c]) == [a]
  {
  }

  // ---------------------------------------------------------------------
  // The extraction summary
  // ---------------------------------------------------------------------

  /** A rule of 80 `=`. */
  function Rule(): string
  {
    Repeat('=', 80)
  }

  const CHECK_OK: string := "\U{2713} OK\n"

  /** `f"{idx:4}. "`: the index right-aligned in four columns. */
  function IndexLabel(idx: nat): string
  {
    PadLeft(NatToString(idx), 4, ' ') + ". "
  }

  function IncludedLine(idx: nat, file: Path): string
  {
    IndexLabel(idx) + Display(file) + "\n"
  }

  function ExcludedLine(idx: nat, entry: (Path, string)): string
  {
    IndexLabel(idx) + Display(entry.0) + "\n" + "      Reason: " + entry.1 + "\n"
  }

  /** `enumerate(items, 1)`: the line of every item with its position, counting from 1. */
  function NumberedListing<T>(items: seq<T>, line: (nat, T) -> string): string
  {
    if items == [] then ""
    else NumberedListing(items[..|items| - 1], line) + line(|items|, items[|items| - 1])
  }

  function IncludedHeading(count: nat): string
  {
    "\n--- INCLUDED FILES (" + NatToString(count) + ") ---\n\n"
  }

  function ExcludedHeading(count: nat): string
  {
    "\n--- EXCLUDED FILES (" + NatToString(count) + ") ---\n\n"
  }

  /** The included list, left out altogether when nothing was included. */
  function IncludedSection(files: seq<Path>): string
  {
    if files == [] then "" else IncludedHeading(|files|) + NumberedListing(files, IncludedLine)
  }

  /** The excluded list, left out altogether when nothing was excluded. */
  function ExcludedSection(entries: seq<(Path, string)>): string
  {
    if entries == [] then "" else ExcludedHeading(|entries|) + NumberedListing(entries, ExcludedLine)
  }

  /** The self-check of the counts: OK when included + excluded is the number scanned. */
  function VerificationLine(scanned: nat, included: nat, excluded: nat): string
  {
    "Verification: " + NatToString(included) + " + " + NatToString(excluded) + " = " + NatToString(included + excluded) + " "
      + if included + excluded == scanned then CHECK_OK
        else "\U{2717} MISMATCH (expected " + NatToString(scanned) + ")\n"
  }

  /** The banner, the application, the clock reading and the two paths. */
  function SummaryHeader(date: DateTime, base: Path, outputFile: Path): string
  {
    "\n\n" + Rule() + "\n" + "EXTRACTION SUMMARY\n" + Rule() + "\n\n"
      + "Generated by: " + APP_NAME + " v" + VERSION + "\n"
      + COPYRIGHT + "\n"
      + "Extraction date: " + LongStamp(date) + "\n"
      + "Base directory: " + Display(base) + "\n"
      + "Output file: " + Display(outputFile) + "\n"
      + "\n"
  }

  function Statistics(scanned: nat, included: nat, excluded: nat): string
  {
    "Files scanned: " + NatToString(scanned) + "\n"
      + "Files included: " + NatToString(included) + "\n"
      + "Files excluded: " + NatToString(excluded) + "\n"
      + VerificationLine(scanned, included, excluded)
      + "\n"
  }

  function SummaryFooter(): string
  {
    "\n" + Rule() + "\n" + "END OF EXTRACTION SUMMARY\n" + Rule() + "\n"
  }

  /** Everything written after the last block. */
  function SummaryText(date: DateTime, base: Path, outputFile: Path, scanned: nat,
                       included: seq<Path>, excluded: seq<(Path, string)>): string
  {
    SummaryHeader(date, base, outputFile) + Statistics(scanned, |included|, |excluded|)
      + IncludedSection(included) + ExcludedSection(excluded) + SummaryFooter()
  }

  /** The lists a run records always balance, so the mismatch line is never written. */
  lemma VerificationAlwaysOk(files: seq<Path>, verdict: Path --> Verdict)
    requires Judged(verdict, files)
    ensures var i, e := |IncludedFiles(files, verdict)|, |ExcludedEntries(files, verdict)|;
      VerificationLine(|files|, i, e)
        == "Verification: " + NatToString(i) + " + " + NatToString(e) + " = " + NatToString(|files|) + " " + CHECK_OK
  {
    AccountingBalances(files, verdict);
  }

  /** Indices up to 9999 fill exactly four columns, digits to the right; larger ones widen the shown. */
  lemma IndexLabelShape(idx: nat)
    ensures var shown := IndexLabel(idx);
      && shown[|shown| - 2..] == ". "
      && (idx < 10000 ==> |shown| == 6 && AllIn(shown[..4 - |NatToString(idx)|], {' '})
                          && shown[4 - |NatToString(idx)|..4] == NatToString(idx))
      && (idx >= 10000 ==> shown == NatToString(idx) + ". ")
  {
    var digits := NatToString(idx);
    var padded := PadLeft(digits, 4, ' ');
    var shown := IndexLabel(idx);
    assert shown == padded + ". ";
    if idx < 10000 {
      assert Power10(4) == 10000;
      NatToStringShort(idx, 4);
      assert shown[..4] == padded;
    } else if |digits| < 4 {
      DigitsBound(idx);
    }
  }

  /** A number of at most three digits is below 1000. */
  lemma DigitsBound(n: nat)
    requires |NatToString(n)| <= 3
    ensures n < 1000
  {
    var s := NatToString(n);
    DigitsValueBound(s);
    assert Power10(0) == 1 && Power10(1) == 10 && Power10(2) == 100 && Power10(3) == 1000;
  }

  lemma {:induction false} DigitsValueBound(s: string)
    requires forall k :: 0 <= k < |s| ==> IsDigit(s[k])
    ensures DecimalValue(s) < Power10(|s|)
  {
    if s != [] {
      var front := s[..|s| - 1];
      DigitsValueBound(front);
    }
  }

  // ---------------------------------------------------------------------
  // The run
  // ---------------------------------------------------------------------

  /** The loop of `main` over the candidates: one verdict per file, the block of each included file written in turn. */
  method MergeAndRecord(fs: Tree, codecs: Codecs, files: seq<Path>, base: Path, maxSizeMb: int)
    returns (included: seq<Path>, excluded: seq<(Path, string)>, document: string)
    requires AllFiles(fs, files)
    ensures Judged(RunVerdicts(fs, codecs, maxSizeMb), files)
    ensures included == IncludedFiles(files, RunVerdicts(fs, codecs, maxSizeMb))
    ensures excluded == ExcludedEntries(files, RunVerdicts(fs, codecs, maxSizeMb))
    ensures document == MergedBlocks(files, RunVerdicts(fs, codecs, maxSizeMb), base)
  {
    RunVerdictsJudgeFiles(fs, codecs, maxSizeMb, files);
    ghost var verdict := RunVerdicts(fs, codecs, maxSizeMb);
    included, excluded, document := [], [], "";
    for i := 0 to |files|
      invariant Judged(verdict, files[..i])
      invariant included == IncludedFiles(files[..i], verdict)
      invariant excluded == ExcludedEntries(files[..i], verdict)
      invariant document == MergedBlocks(files[..i], verdict, base)
    {
      var file := files[i];
      var v := JudgeFile(file, fs[file].info, codecs, maxSizeMb);
      assert v == verdict(file);
      assert files[..i + 1][..i] == files[..i] && files[..i + 1][i] == file;
      match v {
        case Include(text) =>
          document := document + Block(RelativeName(base, file), text);
          included := included + [file];
        case Exclude(reason) =>
          excluded := excluded + [(file, ReasonText(reason))];
      }
    }
    assert files[..|files|] == files;
  }

  /** The loop over `enumerate(items, 1)`, one line per item. */
  method WriteNumbered<T>(document: string, items: seq<T>, line: (nat, T) -> string) returns (r: string)
    ensures r == document + NumberedListing(items, line)
  {
    r := document;
    for i := 0 to |items|
      invariant r == document + NumberedListing(items[..i], line)
    {
      assert items[..i + 1][..i] == items[..i];
      r := r + line(i + 1, items[i]);
    }
    assert items[..|items|] == items;
  }

  /** The included list: its heading, then one numbered line per file; nothing when no file was included. */
  method WriteIncluded(document: string, included: seq<Path>) returns (r: string)
    ensures r == document + IncludedSection(included)
  {
    r := document;
    if included != [] {
      r := WriteNumbered(r + IncludedHeading(|included|), included, IncludedLine);
    }
  }

  /** The excluded list: its heading, then one numbered file and reason per entry; nothing when no file was excluded. */
  method WriteExcluded(document: string, excluded: seq<(Path, string)>) returns (r: string)
    ensures r == document + ExcludedSection(excluded)
  {
    r := document;
    if excluded != [] {
      r := WriteNumbered(r + ExcludedHeading(|excluded|), excluded, ExcludedLine);
    }
  }

  /** The writes after the loop: header and statistics, the two numbered lists, the closing banner. */
  method WriteSummary(document: string, date: DateTime, base: Path, outputFile: Path, scanned: nat,
                      included: seq<Path>, excluded: seq<(Path, string)>) returns (r: string)
    ensures r == document + SummaryText(date, base, outputFile, scanned, included, excluded)
  {
    var head := SummaryHeader(date, base, outputFile);
    var statistics := Statistics(scanned, |included|, |excluded|);
    r := document + head + statistics;
    r := WriteIncluded(r, included);
    r := WriteExcluded(r, excluded);
    var footer := SummaryFooter();
    r := r + footer;
    Regrouped(document, head, statistics, IncludedSection(included), ExcludedSection(excluded), footer);
  }

  lemma Regrouped(a: string, b: string, c: string, d: string, e: string, f: string)
    ensures a + b + c + d + e + f == a + (b + c + d + e + f)
  {
  }

  lemma CandidateListAreFiles(fs: Tree, resolver: Resolver, arguments: seq<string>)
    ensures AllFiles(fs, CandidateList(fs, resolver, arguments))
  {
    var selected := CandidateList(fs, resolver, arguments);
    forall i | 0 <= i < |selected| ensures IsFile(fs, selected[i]) {
      CandidatesAreFiles(fs, resolver, arguments, selected[i]);
    }
  }

  /** The summary a run with candidates appends after the blocks, stamped with `summaryClock`. */
  ghost function RunSummary(env: Environment, arguments: seq<string>, outputFile: Path, maxSizeMb: int,
                            summaryClock: DateTime): string
  {
    var selected := CandidateList(env.fs, env.resolver, arguments);
    if selected == [] then ""
    else
      CandidateListAreFiles(env.fs, env.resolver, arguments);
      RunVerdictsJudgeFiles(env.fs, env.codecs, maxSizeMb, selected);
      var verdict := RunVerdicts(env.fs, env.codecs, maxSizeMb);
      SummaryText(summaryClock, BaseDirectory(selected), outputFile, |selected|,
                  IncludedFiles(selected, verdict), ExcludedEntries(selected, verdict))
  }

  /** The document a run with candidates writes: the blocks, then the summary. */
  ghost function RunDocument(env: Environment, arguments: seq<string>, outputFile: Path, maxSizeMb: int,
                             summaryClock: DateTime): string
  {
    var selected := CandidateList(env.fs, env.resolver, arguments);
    if selected == [] then ""
    else
      CandidateListAreFiles(env.fs, env.resolver, arguments);
      RunVerdictsJudgeFiles(env.fs, env.codecs, maxSizeMb, selected);
      MergedBlocks(selected, RunVerdicts(env.fs, env.codecs, maxSizeMb), BaseDirectory(selected))
        + RunSummary(env, arguments, outputFile, maxSizeMb, summaryClock)
  }

  /**
   * The end of a run with candidates: the document for `outputFile` moved
   * there by `shutil.move`, with `tempName` the temporary file's name.
   */
  ghost function FinishOutcome(env: Environment, arguments: seq<string>, outputFile: Path, tempName: string,
                               maxSizeMb: int, summaryClock: DateTime): Outcome
  {
    Move(env.fs, outputFile, tempName, RunDocument(env, arguments, outputFile, maxSizeMb, summaryClock))
  }

  /** A run with a non-empty argument list and the output path `outputFile`: no candidates, or the finish. */
  ghost function OutcomeFor(env: Environment, arguments: seq<string>, outputFile: Path, tempName: string,
                            maxSizeMb: int, summaryClock: DateTime): Outcome
  {
    if CandidateList(env.fs, env.resolver, arguments) == [] then NoFiles
    else FinishOutcome(env, arguments, outputFile, tempName, maxSizeMb, summaryClock)
  }

  /**
   * The whole run, with the corrected output path: `nameClock` is the
   * reading the output name is stamped with, `summaryClock` the later one
   * the summary prints.
   */
  ghost function RunOutcome(env: Environment, arguments: seq<string>, output: Option<string>, tempName: string,
                            maxSizeMb: int, nameClock: DateTime, summaryClock: DateTime): Outcome
  {
    if arguments == [] then BadArguments
    else
      OutcomeFor(env, arguments, OutputFile(env.fs, env.resolver, arguments, output, CompactStamp(nameClock)),
                 tempName, maxSizeMb, summaryClock)
  }

  /** The whole run as the source writes it: the output path computed from the first argument as typed. */
  ghost function RunOutcomeAsWritten(env: Environment, arguments: seq<string>, output: Option<string>, tempName: string,
                                     maxSizeMb: int, nameClock: DateTime, summaryClock: DateTime): Outcome
  {
    if arguments == [] then BadArguments
    else
      OutcomeFor(env, arguments, OutputFileAsWritten(env.fs, env.resolver, arguments, output, CompactStamp(nameClock)),
                 tempName, maxSizeMb, summaryClock)
  }

  /** The loop, the summary and the final move of `main`, once the candidates and the output path are known. */
  method Finish(env: Environment, arguments: seq<string>, selected: seq<Path>, outputFile: Path, tempName: string,
                maxSizeMb: int, summaryClock: DateTime) returns (outcome: Outcome)
    requires selected == CandidateList(env.fs, env.resolver, arguments) && selected != []
    ensures outcome == FinishOutcome(env, arguments, outputFile, tempName, maxSizeMb, summaryClock)
  {
    var base := BaseDirectory(selected);
    CandidateListAreFiles(env.fs, env.resolver, arguments);
    var included, excluded, document := MergeAndRecord(env.fs, env.codecs, selected, base, maxSizeMb);
    document := WriteSummary(document, summaryClock, base, outputFile, |selected|, included, excluded);
    outcome := Move(env.fs, outputFile, tempName, document);
  }

  /** `main`, from the parsed arguments to the outcome, with the corrected output path. */
  method Run(env: Environment, arguments: seq<string>, output: Option<string>, tempName: string, maxSizeMb: int,
             nameClock: DateTime, summaryClock: DateTime) returns (outcome: Outcome)
    requires WellFormed(env.fs)
    ensures outcome == RunOutcome(env, arguments, output, tempName, maxSizeMb, nameClock, summaryClock)
  {
    if arguments == [] {
      return BadArguments;
    }
    var selected := ExpandInputPaths(env.fs, env.resolver, arguments);
    if selected == [] {
      return NoFiles;
    }
    var outputFile := OutputFile(env.fs, env.resolver, arguments, output, CompactStamp(nameClock));
    outcome := Finish(env, arguments, selected, outputFile, tempName, maxSizeMb, summaryClock);
  }

  /** `main` as the source writes it. */
  method RunAsWritten(env: Environment, arguments: seq<string>, output: Option<string>, tempName: string, maxSizeMb: int,
                      nameClock: DateTime, summaryClock: DateTime) returns (outcome: Outcome)
    requires WellFormed(env.fs)
    ensures outcome == RunOutcomeAsWritten(env, arguments, output, tempName, maxSizeMb, nameClock, summaryClock)
  {
    if arguments == [] {
      return BadArguments;
    }
    var selected := ExpandInputPaths(env.fs, env.resolver, arguments);
    if selected == [] {
      return NoFiles;
    }
    var outputFile := OutputFileAsWritten(env.fs, env.resolver, arguments, output, CompactStamp(nameClock));
    outcome := Finish(env, arguments, selected, outputFile, tempName, maxSizeMb, summaryClock);
  }

  /** With `-o`, or whenever both computations give the same path, the as-written run and the corrected run agree. */
  lemma AsWrittenAgreesOnSameOutput(env: Environment, arguments: seq<string>, output: Option<string>, tempName: string,
                                    maxSizeMb: int, nameClock: DateTime, summaryClock: DateTime)
    requires arguments != []
    requires output.Some? || OutputFileAsWritten(env.fs, env.resolver, arguments, None, CompactStamp(nameClock))
                             == OutputFile(env.fs, env.resolver, arguments, None, CompactStamp(nameClock))
    ensures RunOutcomeAsWritten(env, arguments, output, tempName, maxSizeMb, nameClock, summaryClock)
            == RunOutcome(env, arguments, output, tempName, maxSizeMb, nameClock, summaryClock)
  {
    var stamp := CompactStamp(nameClock);
    assert OutputFileAsWritten(env.fs, env.resolver, arguments, output, stamp)
           == OutputFile(env.fs, env.resolver, arguments, output, stamp);
  }

  /** The candidate list is empty exactly when no argument contributes a file. */
  lemma NoCandidatesIffNothingCollected(fs: Tree, resolver: Resolver, arguments: seq<string>)
    ensures CandidateList(fs, resolver, arguments) == [] <==> Collected(fs, resolver, arguments) == {}
  {
    var selected := CandidateList(fs, resolver, arguments);
    if selected != [] {
      assert selected[0] in selected;
    }
    if Collected(fs, resolver, arguments) != {} {
      var p :| p in Collected(fs, resolver, arguments);
      assert p in selected;
    }
  }

  /** Whatever the output path, a run ends with no files exactly when no argument contributes one, and otherwise publishes or crashes. */
  lemma OutcomeForShape(env: Environment, arguments: seq<string>, outputFile: Path, tempName: string,
                        maxSizeMb: int, summaryClock: DateTime)
    ensures var outcome := OutcomeFor(env, arguments, outputFile, tempName, maxSizeMb, summaryClock);
      && (outcome == NoFiles <==> Collected(env.fs, env.resolver, arguments) == {})
      && (outcome.Published? || outcome.Crashed? || outcome == NoFiles)
      && (ExitCode(outcome) == EXIT_NO_FILES <==> outcome == NoFiles)
  {
    NoCandidatesIffNothingCollected(env.fs, env.resolver, arguments);
    var outcome := OutcomeFor(env, arguments, outputFile, tempName, maxSizeMb, summaryClock);
    if CandidateList(env.fs, env.resolver, arguments) != [] {
      var document := RunDocument(env, arguments, outputFile, maxSizeMb, summaryClock);
      assert outcome == Move(env.fs, outputFile, tempName, document);
      ExitCodeOfFinish(outcome);
    }
  }

  /** A run that got past the candidate check never reports "no files". */
  lemma ExitCodeOfFinish(outcome: Outcome)
    requires outcome.Published? || outcome.Crashed?
    ensures ExitCode(outcome) != EXIT_NO_FILES
  {
  }

  /**
   * The exit code is 2 exactly when no argument contributes a file, and a
   * run that finds candidates ends by publishing its document or by failing
   * to move it: with the corrected output path...
   */
  lemma NoCandidatesIsExitTwo(env: Environment, arguments: seq<string>, output: Option<string>, tempName: string,
                              maxSizeMb: int, nameClock: DateTime, summaryClock: DateTime)
    requires arguments != []
    ensures var outcome := RunOutcome(env, arguments, output, tempName, maxSizeMb, nameClock, summaryClock);
      && (ExitCode(outcome) == EXIT_NO_FILES <==> Collected(env.fs, env.resolver, arguments) == {})
      && (Collected(env.fs, env.resolver, arguments) != {} ==> outcome.Published? || outcome.Crashed?)
  {
    OutcomeForShape(env, arguments, OutputFile(env.fs, env.resolver, arguments, output, CompactStamp(nameClock)),
                    tempName, maxSizeMb, summaryClock);
  }

  /** ...and with the output path the source computes. */
  lemma NoCandidatesIsExitTwoAsWritten(env: Environment, arguments: seq<string>, output: Option<string>, tempName: string,
                                       maxSizeMb: int, nameClock: DateTime, summaryClock: DateTime)
    requires arguments != []
    ensures var outcome := RunOutcomeAsWritten(env, arguments, output, tempName, maxSizeMb, nameClock, summaryClock);
      && (ExitCode(outcome) == EXIT_NO_FILES <==> Collected(env.fs, env.resolver, arguments) == {})
      && (Collected(env.fs, env.resolver, arguments) != {} ==> outcome.Published? || outcome.Crashed?)
  {
    OutcomeForShape(env, arguments, OutputFileAsWritten(env.fs, env.resolver, arguments, output, CompactStamp(nameClock)),
                    tempName, maxSizeMb, summaryClock);
  }

  /**
   * A published run publishes, at the output path or inside it when it is a
   * folder, the blocks and the summary naming the output path.
   */
  lemma PublishedOutcome(env: Environment, arguments: seq<string>, outputFile: Path, tempName: string,
                         maxSizeMb: int, summaryClock: DateTime)
    requires OutcomeFor(env, arguments, outputFile, tempName, maxSizeMb, summaryClock).Published?
    ensures CandidateList(env.fs, env.resolver, arguments) != []
    ensures var outcome := OutcomeFor(env, arguments, outputFile, tempName, maxSizeMb, summaryClock);
      && outcome.outputFile == MoveTarget(env.fs, outputFile, tempName)
      && CanPublish(env.fs, outcome.outputFile)
      && outcome.document == RunDocument(env, arguments, outputFile, maxSizeMb, summaryClock)
  {
    var document := RunDocument(env, arguments, outputFile, maxSizeMb, summaryClock);
    assert OutcomeFor(env, arguments, outputFile, tempName, maxSizeMb, summaryClock)
           == Move(env.fs, outputFile, tempName, document);
    MovePublished(env.fs, outputFile, tempName, document);
  }

  /** Every candidate that passes the gates is in the document of a published run, as a block with its decoded text. */
  lemma IncludedFileInOutcome(env: Environment, arguments: seq<string>, outputFile: Path, tempName: string,
                              maxSizeMb: int, summaryClock: DateTime, f: Path, text: string)
    requires f in Collected(env.fs, env.resolver, arguments)
    requires IsFile(env.fs, f) && Classify(f, env.fs[f].info, env.codecs, maxSizeMb) == Include(text)
    ensures var outcome := OutcomeFor(env, arguments, outputFile, tempName, maxSizeMb, summaryClock);
      outcome.Published? ==>
        Contains(outcome.document, Block(RelativeName(BaseDirectory(CandidateList(env.fs, env.resolver, arguments)), f), text))
  {
    IncludedFileInRunDocument(env, arguments, outputFile, maxSizeMb, summaryClock, f, text);
  }

  /** Every candidate that passes the gates is in the published document: with the corrected output path... */
  lemma IncludedFileInDocument(env: Environment, arguments: seq<string>, output: Option<string>, tempName: string,
                               maxSizeMb: int, nameClock: DateTime, summaryClock: DateTime, f: Path, text: string)
    requires f in Collected(env.fs, env.resolver, arguments)
    requires IsFile(env.fs, f) && Classify(f, env.fs[f].info, env.codecs, maxSizeMb) == Include(text)
    ensures var outcome := RunOutcome(env, arguments, output, tempName, maxSizeMb, nameClock, summaryClock);
      outcome.Published? ==>
        Contains(outcome.document, Block(RelativeName(BaseDirectory(CandidateList(env.fs, env.resolver, arguments)), f), text))
  {
    if arguments != [] {
      IncludedFileInOutcome(env, arguments, OutputFile(env.fs, env.resolver, arguments, output, CompactStamp(nameClock)),
                            tempName, maxSizeMb, summaryClock, f, text);
    }
  }

  /** ...and with the one the source computes. */
  lemma IncludedFileInDocumentAsWritten(env: Environment, arguments: seq<string>, output: Option<string>, tempName: string,
                                        maxSizeMb: int, nameClock: DateTime, summaryClock: DateTime, f: Path, text: string)
    requires f in Collected(env.fs, env.resolver, arguments)
    requires IsFile(env.fs, f) && Classify(f, env.fs[f].info, env.codecs, maxSizeMb) == Include(text)
    ensures var outcome := RunOutcomeAsWritten(env, arguments, output, tempName, maxSizeMb, nameClock, summaryClock);
      outcome.Published? ==>
        Contains(outcome.document, Block(RelativeName(BaseDirectory(CandidateList(env.fs, env.resolver, arguments)), f), text))
  {
    if arguments != [] {
      IncludedFileInOutcome(env, arguments,
                            OutputFileAsWritten(env.fs, env.resolver, arguments, output, CompactStamp(nameClock)),
                            tempName, maxSizeMb, summaryClock, f, text);
    }
  }

  /**
   * A published run publishes, at the moved-to path, the blocks and the
   * summary for the output path it computed: the corrected one here...
   */
  lemma PublishedDocument(env: Environment, arguments: seq<string>, output: Option<string>, tempName: string,
                          maxSizeMb: int, nameClock: DateTime, summaryClock: DateTime)
    requires RunOutcome(env, arguments, output, tempName, maxSizeMb, nameClock, summaryClock).Published?
    ensures arguments != []
    ensures var outputFile := OutputFile(env.fs, env.resolver, arguments, output, CompactStamp(nameClock));
      var outcome := RunOutcome(env, arguments, output, tempName, maxSizeMb, nameClock, summaryClock);
      && outcome.outputFile == MoveTarget(env.fs, outputFile, tempName)
      && outcome.document == RunDocument(env, arguments, outputFile, maxSizeMb, summaryClock)
  {
    PublishedOutcome(env, arguments, OutputFile(env.fs, env.resolver, arguments, output, CompactStamp(nameClock)),
                     tempName, maxSizeMb, summaryClock);
  }

  /** ...and the one computed from the first argument as typed in the source. */
  lemma PublishedDocumentAsWritten(env: Environment, arguments: seq<string>, output: Option<string>, tempName: string,
                                   maxSizeMb: int, nameClock: DateTime, summaryClock: DateTime)
    requires RunOutcomeAsWritten(env, arguments, output, tempName, maxSizeMb, nameClock, summaryClock).Published?
    ensures arguments != []
    ensures var outputFile := OutputFileAsWritten(env.fs, env.resolver, arguments, output, CompactStamp(nameClock));
      var outcome := RunOutcomeAsWritten(env, arguments, output, tempName, maxSizeMb, nameClock, summaryClock);
      && outcome.outputFile == MoveTarget(env.fs, outputFile, tempName)
      && outcome.document == RunDocument(env, arguments, outputFile, maxSizeMb, summaryClock)
  {
    PublishedOutcome(env, arguments, OutputFileAsWritten(env.fs, env.resolver, arguments, output, CompactStamp(nameClock)),
                     tempName, maxSizeMb, summaryClock);
  }

  lemma IncludedFileInRunDocument(env: Environment, arguments: seq<string>, outputFile: Path, maxSizeMb: int,
                                  summaryClock: DateTime, f: Path, text: string)
    requires f in Collected(env.fs, env.resolver, arguments)
    requires IsFile(env.fs, f) && Classify(f, env.fs[f].info, env.codecs, maxSizeMb) == Include(text)
    ensures CandidateList(env.fs, env.resolver, arguments) != []
    ensures Contains(RunDocument(env, arguments, outputFile, maxSizeMb, summaryClock),
                     Block(RelativeName(BaseDirectory(CandidateList(env.fs, env.resolver, arguments)), f), text))
  {
    var selected := CandidateList(env.fs, env.resolver, arguments);
    assert f in selected;
    CandidateListAreFiles(env.fs, env.resolver, arguments);
    RunVerdictsJudgeFiles(env.fs, env.codecs, maxSizeMb, selected);
    var verdict := RunVerdicts(env.fs, env.codecs, maxSizeMb);
    var base := BaseDirectory(selected);
    IncludedFileWritten(selected, verdict, base, f, text);
    var summary := RunSummary(env, arguments, outputFile, maxSizeMb, summaryClock);
    assert RunDocument(env, arguments, outputFile, maxSizeMb, summaryClock) == MergedBlocks(selected, verdict, base) + summary;
    ContainsExtended(MergedBlocks(selected, verdict, base), summary, Block(RelativeName(base, f), text));
  }

  /** A run with candidates whose output path can be renamed onto publishes there. */
  lemma OutcomeForPublishes(env: Environment, arguments: seq<string>, outputFile: Path, tempName: string,
                            maxSizeMb: int, summaryClock: DateTime)
    requires Collected(env.fs, env.resolver, arguments) != {} && CanPublish(env.fs, outputFile)
    ensures OutcomeFor(env, arguments, outputFile, tempName, maxSizeMb, summaryClock).Published?
    ensures OutcomeFor(env, arguments, outputFile, tempName, maxSizeMb, summaryClock).outputFile == outputFile
  {
    NoCandidatesIffNothingCollected(env.fs, env.resolver, arguments);
    MoveAgreesWithReplace(env.fs, outputFile, tempName, RunDocument(env, arguments, outputFile, maxSizeMb, summaryClock));
  }

  /**
   * With the default output, a run whose cleaned first argument names an
   * existing entry and that finds candidates publishes its document, in a
   * tree with no directory named like an output...
   */
  lemma DefaultRunPublishes(env: Environment, arguments: seq<string>, tempName: string, maxSizeMb: int,
                            nameClock: DateTime, summaryClock: DateTime)
    requires WellFormed(env.fs) && arguments != []
    requires ExpandAndResolve(env.resolver, SanitizeArgument(arguments[0])) in env.fs
    requires forall p :: IsDir(env.fs, p) ==> !IsPreviousOutput(p)
    requires Collected(env.fs, env.resolver, arguments) != {}
    ensures RunOutcome(env, arguments, None, tempName, maxSizeMb, nameClock, summaryClock).Published?
  {
    var stamp := CompactStamp(nameClock);
    DefaultOutputPublishable(env.fs, env.resolver, arguments, stamp);
    OutcomeForPublishes(env, arguments, OutputFile(env.fs, env.resolver, arguments, None, stamp), tempName, maxSizeMb,
                        summaryClock);
  }

  /** ...while the source's run publishes only when its first argument, resolved exactly as typed, exists. */
  lemma DefaultRunPublishesAsWritten(env: Environment, arguments: seq<string>, tempName: string, maxSizeMb: int,
                                     nameClock: DateTime, summaryClock: DateTime)
    requires WellFormed(env.fs) && arguments != []
    requires env.resolver.resolve(arguments[0]) in env.fs
    requires forall p :: IsDir(env.fs, p) ==> !IsPreviousOutput(p)
    requires Collected(env.fs, env.resolver, arguments) != {}
    ensures RunOutcomeAsWritten(env, arguments, None, tempName, maxSizeMb, nameClock, summaryClock).Published?
  {
    var stamp := CompactStamp(nameClock);
    DefaultOutputPublishableAsWritten(env.fs, env.resolver, arguments, stamp);
    OutcomeForPublishes(env, arguments, OutputFileAsWritten(env.fs, env.resolver, arguments, None, stamp), tempName,
                        maxSizeMb, summaryClock);
  }

  /**
   * The source's run on the quoted folder `"/data/proj"` from `/Users`
   * walks the folder and then exits with 3, because the final move goes
   * into `/Users/"`...
   */
  lemma QuotedFolderRunAsWritten(env: Environment, arguments: seq<string>, tempName: string, maxSizeMb: int,
                                 nameClock: DateTime, summaryClock: DateTime)
    requires env.fs == ExampleTree() && env.resolver == ExampleResolver() && arguments == [QUOTED_FOLDER]
    ensures Collected(env.fs, env.resolver, arguments) != {}
    ensures RunOutcomeAsWritten(env, arguments, None, tempName, maxSizeMb, nameClock, summaryClock) == Crashed
  {
    QuotedFolderCollected(env.fs, env.resolver, arguments);
    NoCandidatesIffNothingCollected(env.fs, env.resolver, arguments);
    QuotedFolderFinish(env, arguments, tempName, maxSizeMb, CompactStamp(nameClock), summaryClock);
  }

  /** The crash is the runtime-error exit code 3. */
  lemma QuotedFolderExitCode(env: Environment, arguments: seq<string>, tempName: string, maxSizeMb: int,
                             nameClock: DateTime, summaryClock: DateTime)
    requires env.fs == ExampleTree() && env.resolver == ExampleResolver() && arguments == [QUOTED_FOLDER]
    ensures ExitCode(RunOutcomeAsWritten(env, arguments, None, tempName, maxSizeMb, nameClock, summaryClock))
            == EXIT_RUNTIME_ERROR
  {
    QuotedFolderRunAsWritten(env, arguments, tempName, maxSizeMb, nameClock, summaryClock);
    CrashIsExitThree(RunOutcomeAsWritten(env, arguments, None, tempName, maxSizeMb, nameClock, summaryClock));
  }

  lemma CrashIsExitThree(outcome: Outcome)
    requires outcome == Crashed
    ensures ExitCode(outcome) == EXIT_RUNTIME_ERROR
  {
  }

  /** ...while the corrected run publishes its document. */
  lemma QuotedFolderRunCorrected(env: Environment, arguments: seq<string>, tempName: string, maxSizeMb: int,
                                 nameClock: DateTime, summaryClock: DateTime)
    requires env.fs == ExampleTree() && env.resolver == ExampleResolver() && arguments == [QUOTED_FOLDER]
    ensures RunOutcome(env, arguments, None, tempName, maxSizeMb, nameClock, summaryClock).Published?
  {
    QuotedFolderCollected(env.fs, env.resolver, arguments);
    NoCandidatesIffNothingCollected(env.fs, env.resolver, arguments);
    QuotedFolderFinish(env, arguments, tempName, maxSizeMb, CompactStamp(nameClock), summaryClock);
  }

  lemma QuotedFolderFinish(env: Environment, arguments: seq<string>, tempName: string, maxSizeMb: int, stamp: string,
                           summaryClock: DateTime)
    requires env.fs == ExampleTree() && env.resolver == ExampleResolver() && arguments == [QUOTED_FOLDER]
    ensures FinishOutcome(env, arguments, OutputFileAsWritten(env.fs, env.resolver, arguments, None, stamp),
                          tempName, maxSizeMb, summaryClock) == Crashed
    ensures FinishOutcome(env, arguments, OutputFile(env.fs, env.resolver, arguments, None, stamp),
                          tempName, maxSizeMb, summaryClock).Published?
  {
    var asWritten := OutputFileAsWritten(env.fs, env.resolver, arguments, None, stamp);
    var corrected := OutputFile(env.fs, env.resolver, arguments, None, stamp);
    QuotedFolderOutputAsWritten(stamp, tempName, RunDocument(env, arguments, asWritten, maxSizeMb, summaryClock));
    MoveAgreesWithReplace(env.fs, corrected, tempName, RunDocument(env, arguments, corrected, maxSizeMb, summaryClock));
  }

  /** Walking the quoted folder finds its one file. */
  lemma QuotedFolderCollected(fs: Tree, resolver: Resolver, arguments: seq<string>)
    requires fs == ExampleTree() && resolver == ExampleResolver() && arguments == [QUOTED_FOLDER]
    ensures ["data", "proj", "notes.md"] in Collected(fs, resolver, arguments)
  {
    QuotedFolderSanitized();
    ExampleFolderResolved();
    NotesInProj();
    FolderArgumentFileIsCandidate(fs, resolver, arguments, 0, ["data", "proj", "notes.md"]);
  }

  lemma NotesInProj()
    ensures IsFile(ExampleTree(), ["data", "proj", "notes.md"]) && IsChild(["data", "proj", "notes.md"], ["data", "proj"])
  {
    var f: Path := ["data", "proj", "notes.md"];
    assert f[..2] == ["data", "proj"];
  }
}
