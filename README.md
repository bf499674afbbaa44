# folder-text-merger in Dafny

This project models the file-selection and merge pipeline of the two
folder-text-merger entry points and proves properties of the model.

- `Folder2Text` does the following:
  - it takes files and folders as arguments, cleans each argument up and walks the folders, pruning excluded subdirectory names;
  - it sorts the candidates;
  - it runs every candidate through a fixed chain of gates: name, `stat()`, size, binary sniffer, decoders;
  - it writes one block per accepted file and records every verdict in an included or an excluded list;
  - it appends an extraction summary with a self-check line;
  - it moves the document to an output path, which by default is placed beside the folder the user clicked on.
- `FolderTextMerger` shares the five helpers and the gates. Its loop keeps no lists and writes no summary, and its default output goes inside the base directory.

The modules follow the program's structure:

| file | module | what it holds |
|---|---|---|
| `strings.dfy` | `Strings` | Python's `strip`/`rstrip`, ASCII `lower`, `startswith`, `join`, `str(int)` and `f"{s:>n}"` |
| `paths.dfy` | `Paths` | `Path.name`, `Path.parent`, `Path.suffix`, `is_relative_to`, `os.path.commonpath`, and `Path` ordering with `sorted` |
| `filesystem.dfy` | `FileSystem` | the filesystem snapshot (a map from component sequences to files and directories) and the uninterpreted `expanduser`/`resolve` |
| `config.dfy` | `Config` | the constants: sizes, threshold, exit codes, excluded directories, allow-lists, output prefix and suffix |
| `sanitizer.dfy` | `Sanitizer` | `sanitize_argument` |
| `classifier.dfy` | `Classifier` | `is_supported_file` and `is_probably_text_file` |
| `encodings.dfy` | `EncodingReader` | `read_text_safely` over five decoders tried in order |
| `expander.dfy` | `TreeExpander` | `expand_input_paths`, with `os.walk` as a worklist loop |
| `pipeline.dfy` | `Pipeline` | the shared pieces of `main`: the gates and reasons, blocks, base directory, verdict lists, timestamps, output names, the final move, exit codes |
| `folder2text.dfy` | `Folder2Text` | the `Folder2Text` output path, summary and run |
| `foldertextmerger.dfy` | `FolderTextMerger` | the `FolderTextMerger` output path and run |

The helpers are the same text in both source files: `src/Folder2Text.py:187-257` and `src/FolderTextMerger.py:186-256`. They are modelled once. The table below cites the `Folder2Text` lines; each row applies equally to the `FolderTextMerger` copy.

A run is a method over its inputs, and it returns an `Outcome`:

- the inputs are:
  - an `Environment`: the filesystem, the path resolver and the four library decoders;
  - the argument list and the `-o` value;
  - the size limit;
  - the clock readings;
  - for Folder2Text, the name of the temporary file, which `shutil.move` keeps when the output path is a folder;
- the possible outcomes are:
  - `BadArguments`: the argument parser refuses an empty list;
  - `NoFiles`: there are no candidates;
  - `Published`: the document is at the path it was moved to;
  - `Crashed`: the final move failed and the entry point exited with 3.

Each `Run` method is proved equal to a ghost specification function `RunOutcome`. The properties are then proved about that function. Folder2Text has two runs. `Folder2Text.RunAsWritten` computes the default output path as the source does, and is proved equal to `RunOutcomeAsWritten`. `Folder2Text.Run` uses the corrected output path (see "## Findings"), and is proved equal to `RunOutcome`. Both are built on `Folder2Text.OutcomeFor`, which takes the output path as an input, so the properties are proved once over it and then stated for each run.

## Model

| member | source | states |
|---|---|---|
| Strings.Strip | src/Folder2Text.py:190-193 | `strip()` leaves no stripped character at either end, and gives "" exactly when every character is one it strips |
| Strings.StripOf | src/Folder2Text.py:190-193 | framing a trimmed string with stripped characters on both sides and stripping gives the string back |
| Strings.StripTrimmed | src/Folder2Text.py:190-193 | a string that is already trimmed is its own strip |
| Strings.TrimEnd | src/Folder2Text.py:381 | `rstrip()` keeps a prefix of its input, drops only stripped characters, and ends in a kept character |
| Strings.NatToString | src/Folder2Text.py:417-420 | `str(n)` is a non-empty digit string whose decimal value is `n`, without leading zeros |
| Strings.PadLeft | src/Folder2Text.py:433 | `f"{s:>4}"` is as long as the width or the string, ends with the string, and is padded only with the fill character |
| Strings.LowerFixesNonUpper | src/Folder2Text.py:197-202 | `lower()` leaves a string without capital letters unchanged |
| Sanitizer.SanitizeArgument | src/Folder2Text.py:187-193 | empty input gives ""; the result is never longer than the argument and has no whitespace at either end |
| Sanitizer.PlainPathUnchanged | src/Folder2Text.py:187-193 | a path that neither starts nor ends with whitespace or a quote and does not start with `>` is returned unchanged |
| Sanitizer.QuotesAndBlanksRemoved | src/Folder2Text.py:190-193 | whitespace, then any number of `"`, then any number of `'` around a plain path are all removed |
| Sanitizer.DoubleQuotedPlainPath | src/Folder2Text.py:190 | the double quotes a drag-and-drop puts around a plain path are removed |
| Sanitizer.AngleBracketRemoved | src/Folder2Text.py:191-193 | a leading `>` before an otherwise clean path is removed |
| Sanitizer.OnlyOneAngleBracketRemoved | src/Folder2Text.py:191-192 | only one `>` is removed: `>>p` gives `>p` |
| Sanitizer.BlankArgumentIsEmpty | src/Folder2Text.py:188-193 | an argument made only of whitespace sanitises to "" |
| Paths.Suffix | src/Folder2Text.py:197-202 | `Path.suffix` is "" or a proper tail of the name that starts with its last dot and has at least one more character |
| Paths.SuffixOfStemAndExtension | src/Folder2Text.py:202 | a non-empty stem followed by an extension has exactly that extension as its suffix |
| Paths.DotFileHasNoSuffix | src/Folder2Text.py:201-202 | a name whose only dot is its first character (`.env`) has no suffix |
| Paths.CommonPath | src/Folder2Text.py:299-300 | `os.path.commonpath` is an ancestor of every path given |
| Paths.CommonPathIsDeepest | src/Folder2Text.py:299-300 | every common ancestor of the paths is an ancestor of the common path |
| Paths.PathLessTotal | src/Folder2Text.py:257 | `Path` ordering is total: of two different paths, one comes first |
| Paths.PathLessTransitive | src/Folder2Text.py:257 | `Path` ordering is transitive |
| Paths.SortPaths | src/Folder2Text.py:257 | `sorted(set)` returns a strictly increasing sequence of exactly the set's paths |
| Paths.StrictlyIncreasingUnique | src/Folder2Text.py:257 | two strictly increasing sequences of the same paths are equal, so the sorted order is unique |
| Paths.StrictlyIncreasingHasNoDuplicates | src/Folder2Text.py:230-257 | a strictly increasing sequence holds no path twice |
| Classifier.PreviousOutputRefused | src/Folder2Text.py:195-198 | an `output-*.txt` name in any case is refused, even though `.txt` is on the extension list |
| Classifier.SupportedByExtension | src/Folder2Text.py:195-203 | a stem plus a listed extension in any case is accepted, unless the name starts with `output-` |
| Classifier.NoSuffixNeedsListedName | src/Folder2Text.py:200-203 | a name without a suffix is accepted exactly when its lower-cased name is on the file-name list |
| Classifier.DotEnvAccepted | src/Folder2Text.py:68-76 | `.env` is accepted through the file-name list |
| Classifier.DotPyRefused | src/Folder2Text.py:195-203 | a file named just `.py` has no suffix and is refused |
| Classifier.DockerfileAccepted | src/Folder2Text.py:201 | `Dockerfile` is accepted through its lower-cased name |
| Classifier.MakefileRefused | src/Folder2Text.py:195-203 | `Makefile` is not on the name list and has no suffix, so it is refused |
| Classifier.UpperCaseTxtIsPreviousOutput | src/Folder2Text.py:197 | `output-notes.TXT` counts as a previous output: the suffix is compared lower-cased |
| Classifier.OutputPrefixNeedsTxt | src/Folder2Text.py:197-203 | a name starting with `output-` and ending in another listed extension is an ordinary supported file |
| Classifier.CountPrintable | src/Folder2Text.py:211-214 | the printable count is at most the length; it equals the length iff every byte is printable, and is 0 iff none is |
| Classifier.CountPrintableAppend | src/Folder2Text.py:211-214 | the printable count of a concatenation is the sum of the counts |
| Classifier.SniffIsRatioTest | src/Folder2Text.py:205-216 | the integer test `100·printable ≥ 85·n` agrees with the real ratio test against 0.85 for every file |
| Classifier.ThresholdIsIntegerTest | src/Folder2Text.py:215-216 | for a positive count, `printable / n ≥ 0.85` iff `100·printable ≥ 85·n` |
| Classifier.EmptyAndUnreadable | src/Folder2Text.py:206-210 | an empty readable file is text, and a file that cannot be opened is never text |
| Classifier.AllPrintableIsText | src/Folder2Text.py:211-216 | a readable file whose sample is all printable is text |
| Classifier.NoPrintableIsBinary | src/Folder2Text.py:209-216 | a non-empty file whose sample has no printable byte is binary |
| Classifier.OnlySampleMatters | src/Folder2Text.py:208 | bytes after the first 8192 never change the sniffer's verdict |
| Classifier.ThresholdBoundary | src/Folder2Text.py:215-216 | the threshold is inclusive: 85 printable of 100 is text, 84 of 100 is binary |
| EncodingReader.Latin1RoundTrip | src/Folder2Text.py:221 | encoding the latin-1 reading of a file gives its bytes back |
| EncodingReader.FirstSuccess | src/Folder2Text.py:220-227 | the result is None iff every attempt fails; otherwise it is the first successful attempt, and all earlier ones failed |
| EncodingReader.ReadTextSafely | src/Folder2Text.py:220-227 | the early-return loop over the encodings returns the first success |
| EncodingReader.FirstSuccessWins | src/Folder2Text.py:221-224 | the first encoding that succeeds decides the text, whatever later ones would give |
| EncodingReader.NoTextIffUnreadable | src/Folder2Text.py:220-227 | the reader returns None exactly when the file cannot be opened |
| EncodingReader.Latin1IsTheFallback | src/Folder2Text.py:221 | when the four library decoders all fail, the text is the latin-1 reading |
| EncodingReader.Utf8First | src/Folder2Text.py:221 | valid utf-8 is read as utf-8 |
| TreeExpander.Walk | src/Folder2Text.py:247-255 | the walk returns exactly the files directly in `top` or in a directory below it that has no excluded name below `top` |
| TreeExpander.AllWalkableSeen | src/Folder2Text.py:248-253 | a set of directories that holds `top` and its kept subdirectories holds every walkable directory |
| TreeExpander.ExpandInputPaths | src/Folder2Text.py:229-257 | the result is strictly increasing, holds exactly the collected paths, and equals the candidate list |
| TreeExpander.UnionOverMembership | src/Folder2Text.py:230-255 | a path is collected iff some argument contributes it |
| TreeExpander.CollectedMembership | src/Folder2Text.py:230-255 | a path is collected iff some argument's files contain it |
| TreeExpander.CandidatesAreFiles | src/Folder2Text.py:243-255 | only files are collected, never directories |
| TreeExpander.FileArgumentIsCandidate | src/Folder2Text.py:243-245 | a file argument is always collected, however it was quoted |
| TreeExpander.EmptyOrMissingContributesNothing | src/Folder2Text.py:233-241 | an argument that is blank after clean-up, or that names nothing, contributes nothing |
| TreeExpander.ExcludedSubdirectoryPruned | src/Folder2Text.py:249-253 | nothing under a subdirectory below the walked root with an excluded name is collected |
| TreeExpander.TopIsNeverPruned | src/Folder2Text.py:247-255 | the files directly in a walked folder are collected even when the folder's own name is excluded |
| TreeExpander.ArgumentOrderIrrelevant | src/Folder2Text.py:230-257 | the candidates depend only on which arguments are given, not on their order or repetition |
| TreeExpander.ListedOnce | src/Folder2Text.py:230-257 | a file named directly by one argument and lying in a folder named by another appears in the candidate list, and at exactly one index |
| TreeExpander.FolderArgumentFileIsCandidate | src/Folder2Text.py:240-247 | a file directly inside a folder argument is a candidate |
| Pipeline.NameGateDecidesAlone | src/Folder2Text.py:350-359 | a file refused by name gets "Previous output file" or "Unsupported file type", whatever its contents and the limit |
| Pipeline.StatFailureDecidesAlone | src/Folder2Text.py:361-390 | a supported file whose `stat()` raises is excluded with "Error: …", whatever its contents and the limit |
| Pipeline.SizeLimitInclusive | src/Folder2Text.py:328-365 | a file of exactly the limit passes the size gate, and one byte more is refused as too large |
| Pipeline.RaisingTheLimit | src/Folder2Text.py:361-365 | raising the limit changes only verdicts that were "File too large" |
| Pipeline.UndecodableIsUnreachable | src/Folder2Text.py:367-378 | "Encoding not supported" is never a verdict: a file that passes the sniffer can be opened, so latin-1 reads it |
| Pipeline.IncludedIffEveryGatePasses | src/Folder2Text.py:350-384 | a file is included with text `t` iff it passes every gate and the decoders give `t` |
| Pipeline.JudgeFile | src/Folder2Text.py:350-378 | the gate chain with its early exits returns the verdict of `Classify` |
| Pipeline.BlockShape | src/Folder2Text.py:380-382 | a block is the header, the text without its trailing whitespace, and one newline |
| Pipeline.BaseDirectoryIsAncestor | src/Folder2Text.py:299-348 | the base directory is an ancestor of every candidate, so names never fall back to the bare name |
| Pipeline.BaseDirectoryIsDeepest | src/Folder2Text.py:299-300 | with several candidates, every common ancestor is an ancestor of the base directory |
| Pipeline.BaseDirectoryIsDir | src/Folder2Text.py:299-302 | in a well-formed tree the base directory exists as a directory |
| Pipeline.AccountingBalances | src/Folder2Text.py:342-396 | included plus excluded is the number of files scanned |
| Pipeline.IncludedMembership | src/Folder2Text.py:380-384 | a file is in the included list iff it is scanned and its verdict is Include |
| Pipeline.ExcludedMembership | src/Folder2Text.py:350-390 | `(f, r)` is in the excluded list iff `f` is scanned and excluded with reason text `r` |
| Pipeline.ExactlyOneList | src/Folder2Text.py:342-396 | every scanned file is in exactly one of the two lists |
| Pipeline.IncludedInOrder | src/Folder2Text.py:342-384 | the included list keeps the sorted processing order |
| Pipeline.ExcludedInOrder | src/Folder2Text.py:342-390 | the excluded list keeps the sorted processing order |
| Pipeline.OnlyIncludedFilesWrite | src/Folder2Text.py:380-384 | the blocks written are those of the included files alone; refused files contribute nothing |
| Pipeline.IncludedFileWritten | src/Folder2Text.py:380-382 | the block of every included file occurs in the merged text |
| Pipeline.AncestorIsDir | src/Folder2Text.py:299-302 | in a well-formed tree every proper ancestor of an entry is a directory |
| Pipeline.DigitsRoundTrip | src/Folder2Text.py:322 | a zero-padded field reads back as its number |
| Pipeline.CompactStampRoundTrip | src/Folder2Text.py:322 | `%Y%m%d-%H%M%S` has 15 characters, a `-` at position 8, and fields that read back as the clock's values |
| Pipeline.OutputNameIsPreviousOutput | src/Folder2Text.py:322 | every default output name is a previous output, so any later run excludes it with "Previous output file" |
| Pipeline.Replace | src/FolderTextMerger.py:362 | `os.replace` publishes the document at the output path when its directory exists and the path is not a directory, and otherwise fails |
| Pipeline.Move | src/Folder2Text.py:447-448 | `shutil.move` publishes the document at the output path or directly inside it, and only where a rename can succeed |
| Pipeline.MovePublished | src/Folder2Text.py:448 | a published move lands at the output path, or under the temporary file's name inside it when the output path is a folder |
| Pipeline.MoveAgreesWithReplace | src/Folder2Text.py:447-448 | onto a path that is not a folder, `shutil.move` and `os.replace` agree |
| Pipeline.MoveIntoFolder | src/Folder2Text.py:447-448 | onto an existing folder, `shutil.move` publishes inside it under the temporary file's name, where `os.replace` fails |
| Pipeline.MoveIntoFolderTaken | src/Folder2Text.py:447-448 | onto a folder that already holds an entry with the temporary file's name, `shutil.move` fails |
| Folder2Text.DefaultOutputBesideFolder | src/Folder2Text.py:315-322 | a clicked folder gets `output-<name>-<stamp>.txt` in its parent, outside the folder |
| Folder2Text.DefaultOutputBesideFileFolder | src/Folder2Text.py:318-322 | a clicked file gets the output one level above its folder, named after that folder |
| Folder2Text.DefaultOutputFilePublishable | src/Folder2Text.py:314-322 | the default output for an existing clicked entry, in a tree with no directory named like an output, can be renamed onto |
| Folder2Text.DefaultOutputPublishable | src/Folder2Text.py:306-448 | when the cleaned first argument exists and no directory is named like an output, the corrected default output can be moved into place |
| Folder2Text.DefaultOutputPublishableAsWritten | src/Folder2Text.py:306-448 | when the first argument resolved as typed exists and no directory is named like an output, the source's default output can be moved into place |
| Folder2Text.QuotedFolderOutputAsWritten | src/Folder2Text.py:312-448 | for a quoted folder argument, the output computed from the raw text lies in a folder that does not exist, so the move fails, while the corrected one can be renamed onto |
| Folder2Text.QuotedFolderWalked | src/Folder2Text.py:232-247 | the expander reads a double-quoted folder as the folder itself |
| Folder2Text.VerificationAlwaysOk | src/Folder2Text.py:413-425 | the Verification line of a run always reads "✓ OK" |
| Folder2Text.IndexLabelShape | src/Folder2Text.py:433-439 | `f"{idx:4}. "` right-aligns indices below 10000 in four columns and widens for larger ones |
| Folder2Text.MergeAndRecord | src/Folder2Text.py:342-396 | the loop's included list, excluded list and text are those of the verdicts of the candidates |
| Folder2Text.WriteNumbered | src/Folder2Text.py:432-440 | the `enumerate(items, 1)` loop appends the numbered listing |
| Folder2Text.WriteIncluded | src/Folder2Text.py:430-433 | the included section is written, or nothing when no file was included |
| Folder2Text.WriteExcluded | src/Folder2Text.py:436-440 | the excluded section is written, or nothing when no file was excluded |
| Folder2Text.WriteSummary | src/Folder2Text.py:398-445 | the writes after the loop append exactly the summary text |
| Folder2Text.Finish | src/Folder2Text.py:299-448 | the loop, the summary and the final move give the finish of the run specification |
| Folder2Text.Run | src/Folder2Text.py:263-448 | `main`, with the corrected default output path, gives the outcome of the run specification |
| Folder2Text.RunAsWritten | src/Folder2Text.py:263-448 | `main`, with the default output path computed as the source does, gives the outcome of the as-written run specification |
| Folder2Text.AsWrittenAgreesOnSameOutput | src/Folder2Text.py:306-322 | with `-o`, or whenever both computations give the same path, the two runs have the same outcome |
| Folder2Text.NoCandidatesIffNothingCollected | src/Folder2Text.py:290-297 | the candidate list is empty iff no argument contributes a file |
| Folder2Text.ExitCodeOfFinish | src/Folder2Text.py:448-493 | a run that publishes or crashes does not exit with 2 |
| Folder2Text.OutcomeForShape | src/Folder2Text.py:289-448 | for any output path, the run reports no files iff no argument contributes a file, exits with 2 exactly then, and otherwise publishes or crashes |
| Folder2Text.NoCandidatesIsExitTwo | src/Folder2Text.py:289-448 | the corrected run exits with 2 iff no argument contributes a file, and a run with candidates publishes or crashes |
| Folder2Text.NoCandidatesIsExitTwoAsWritten | src/Folder2Text.py:289-448 | the as-written run exits with 2 iff no argument contributes a file, and a run with candidates publishes or crashes |
| Folder2Text.PublishedOutcome | src/Folder2Text.py:299-448 | for any output path, a published run had candidates, landed where `shutil.move` puts it, and holds the blocks followed by the summary naming that output path |
| Folder2Text.PublishedDocument | src/Folder2Text.py:306-448 | a published corrected run lands where `shutil.move` puts the corrected output, with the blocks-then-summary document for it |
| Folder2Text.PublishedDocumentAsWritten | src/Folder2Text.py:306-448 | a published as-written run lands where `shutil.move` puts the output computed from the first argument as typed, with the blocks-then-summary document for it |
| Folder2Text.IncludedFileInOutcome | src/Folder2Text.py:380-448 | for any output path, the block of every candidate that passes the gates is in the published document |
| Folder2Text.IncludedFileInDocument | src/Folder2Text.py:380-448 | the block of every candidate that passes the gates is in the document of a published corrected run |
| Folder2Text.IncludedFileInDocumentAsWritten | src/Folder2Text.py:380-448 | the block of every candidate that passes the gates is in the document of a published as-written run |
| Folder2Text.OutcomeForPublishes | src/Folder2Text.py:299-448 | a run with candidates whose output path can be renamed onto publishes at that path |
| Folder2Text.DefaultRunPublishes | src/Folder2Text.py:306-448 | with the default output, a corrected run with candidates whose cleaned first argument exists publishes |
| Folder2Text.DefaultRunPublishesAsWritten | src/Folder2Text.py:306-448 | with the default output, an as-written run with candidates whose first argument resolved as typed exists publishes |
| Folder2Text.QuotedFolderFinish | src/Folder2Text.py:312-448 | on the quoted-folder example, the finish with the source's output path crashes and the finish with the corrected one publishes |
| Folder2Text.QuotedFolderRunAsWritten | src/Folder2Text.py:263-448 | on the quoted-folder example, the source's run finds candidates and then crashes in the final move |
| Folder2Text.QuotedFolderExitCode | src/Folder2Text.py:263-448 | on the quoted-folder example, the source's run exits with 3 |
| Folder2Text.QuotedFolderRunCorrected | src/Folder2Text.py:263-448 | on the quoted-folder example, the corrected run publishes |
| FolderTextMerger.DefaultOutputInsideBase | src/FolderTextMerger.py:294-303 | the default output sits directly inside the base directory, which exists, and every later run skips it as a previous output |
| FolderTextMerger.Merge | src/FolderTextMerger.py:315-360 | the loop writes exactly the blocks of the verdicts of the candidates |
| FolderTextMerger.Run | src/FolderTextMerger.py:262-362 | `main` gives the outcome of the run specification |
| FolderTextMerger.NoCandidatesIsExitTwo | src/FolderTextMerger.py:288-292 | with arguments given, the exit code is 2 iff no argument contributes a file |
| FolderTextMerger.DefaultRunPublishes | src/FolderTextMerger.py:294-362 | with the default output, a run with candidates always publishes into the base directory when no directory is named like an output |
| FolderTextMerger.OnlyPassingFilesWritten | src/FolderTextMerger.py:315-352 | the published document is the blocks of the files that pass every gate, in sorted order, and no summary |
| FolderTextMerger.SameBlocksAsFolder2Text | src/FolderTextMerger.py:347-349 | on the same inputs, the `Folder2Text` document is the `FolderTextMerger` document followed by the extraction summary |

## Left out

- Logging and notifications are not modelled: the bootstrap and rotating log handlers, locale detection, crash-report files, `DEV_MODE` messages, the final `print`, and the win10toast notification. They are output with no decision in them.
- argparse is reduced to its result. An empty path list is `BadArguments`, which exits with 2. The `-v` flag and `--help` are not modelled.
- `-o` is passed through the uninterpreted `resolve`.
- `Path.expanduser`/`Path.resolve` are uninterpreted functions given as input. Symbolic links, `..` and the working directory are therefore folded into them.
- `os.walk` is modelled over a snapshot. Walk errors, symbolic links and changes made during the run are not represented.
- `os.walk` order and Windows path rules are left out.
- Paths are modelled in POSIX form. `str(path)` is `/` followed by the components joined with `/`.
- `Path` ordering is lexicographic on components compared by code point. Case-insensitive Windows ordering is not modelled.
- `str.lower` is modelled for ASCII letters only. Other upper-case letters are left unchanged.
- The utf-8, utf-8-sig, utf-16 and cp1252 decoders are uninterpreted partial functions. Only latin-1 is concrete.
- EncodingReader.Latin1IsTheFallback: text-mode newline translation is not modelled, so the fallback it states is the untranslated latin-1 decoding of the bytes; Python would read `\r\n` and a lone `\r` as `\n`.
- The ratio test uses the integer test `100·printable ≥ 85·n`. `Classifier.SniffIsRatioTest` proves it equal to the real-number test. Floating-point rounding of `printable / len` is not modelled.
- A per-file exception is modelled only as a `stat()` failure, which gives "Error: <message>". Failures while writing to the temporary file inside the `try` are not modelled.
- `tempfile.NamedTemporaryFile` is left out: the document is built as a string.
- Publishing is modelled as a rename. `os.replace` in FolderTextMerger succeeds exactly when the output's directory exists and the output is not a directory. `shutil.move` in Folder2Text does the same, except that onto an existing folder it moves the temporary file inside it, under its own name, and fails when that name is taken.
- Publishing ignores cross-device moves, which `os.replace` refuses and `shutil.move` performs by copying; permissions; and disk space.
- Folder2Text.Run: it uses the corrected default output path. `Folder2Text.RunAsWritten` is the run the source performs; it differs only in that path, including the summary's "Output file:" line.
- PublishedDocument: it describes the corrected run. `Folder2Text.PublishedDocumentAsWritten` states the same of the source's run.
- DefaultRunPublishes: it describes the corrected run. `Folder2Text.DefaultRunPublishesAsWritten` states it of the source's run, which needs the first argument, resolved as typed, to exist.
- The two `datetime.now()` readings are parameters: name stamp and summary date. In FolderTextMerger they are one parameter.
- Each gate of the loop leaves with `continue`. The model uses an early-return method (`Pipeline.JudgeFile`) followed by one append, which produces the same writes.
- The output-size log line and other floating-point log output are left out.
- The test scripts under `tests/` drive a compiled executable. They are not modelled.

## Findings

| source | as written | input that shows it | evidently intended | confidence | as-written member | corrected member |
|---|---|---|---|---|---|---|
| src/Folder2Text.py:312 | the default output is computed from `Path(args.paths[0]).resolve()`, the first argument exactly as typed, while the expander walks the sanitised argument | the single argument `"/data/proj"` (with its double quotes), run from `/Users`, over a tree holding `/data/proj/notes.md`: the folder is walked, but the output goes into `/Users/"`, which does not exist, so the final move fails and the run exits with 3 | compute the default output from the same sanitised, expanded and resolved path the expander uses, giving `/data/output-proj-<stamp>.txt` | not executed | Folder2Text.QuotedFolderRunAsWritten | Folder2Text.DefaultOutputPublishable |

`Folder2Text.OutputFileAsWritten` keeps the source's computation, and `Folder2Text.RunAsWritten` and `Folder2Text.RunOutcomeAsWritten` use it. On the failing input, `Folder2Text.QuotedFolderRunAsWritten` proves that the source's run walks the folder and then crashes, and `Folder2Text.QuotedFolderExitCode` that it exits with 3. `Folder2Text.OutputFile` is the corrected computation, and `Folder2Text.Run` and `Folder2Text.RunOutcome` use it. `Folder2Text.DefaultOutputPublishable` proves that it can always be published when the cleaned first argument exists and no directory is named like an output. `Folder2Text.QuotedFolderRunCorrected` proves that the corrected run publishes on the failing input.
