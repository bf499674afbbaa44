/**
 * The merge engine both entry points share: the gates every selected file
 * passes through, the block an included file contributes, the base
 * directory names are taken relative to, and the names of output files.
 */
module Pipeline {
  import opened Wrappers
  import opened Strings
  import opened Paths
  import opened Config
  import opened FileSystem
  import opened Classifier
  import opened EncodingReader

  /** What the program reads from its surroundings: the filesystem, path resolution and the library decoders. */
  datatype Environment = Environment(fs: Tree, resolver: Resolver, codecs: Codecs)

  /** Why a selected file was left out of the merge. */
  datatype Reason =
    | PreviousOutput
    | UnsupportedType
    | TooLarge(limitMb: int)
    | BinaryContent
    | Undecodable
    | Failed(message: string)

  /** The reason as the summary prints it. */
  function ReasonText(reason: Reason): string
  {
    match reason
    case PreviousOutput => "Previous output file"
    case UnsupportedType => "Unsupported file type"
    case TooLarge(mb) => "File too large (>" + IntToString(mb) + "MB)"
    case BinaryContent => "Binary file detected"
    case Undecodable => "Encoding not supported"
    case Failed(message) => "Error: " + message
  }

  datatype Verdict = Include(text: string) | Exclude(reason: Reason)

  /** `max_size_mb * 1024 * 1024` */
  function MaxSizeBytes(maxSizeMb: int): int
  {
    maxSizeMb * BYTES_PER_MB
  }

  /**
   * The gates, in the order the loop tries them: the name, then the gates
   * that look at the file itself.
   */
  function Classify(p: Path, info: FileInfo, codecs: Codecs, maxSizeMb: int): Verdict
  {
    if !IsSupportedFile(p) then
      Exclude(if IsPreviousOutput(p) then PreviousOutput else UnsupportedType)
    else
      ContentVerdict(info, codecs, maxSizeMb)
  }

  /** `stat()` (whose exception is caught by the loop), the size, the sniffer, the decoders. */
  function ContentVerdict(info: FileInfo, codecs: Codecs, maxSizeMb: int): Verdict
  {
    if info.statError.Some? then
      Exclude(Failed(info.statError.value))
    else if |info.content| > MaxSizeBytes(maxSizeMb) then
      Exclude(TooLarge(maxSizeMb))
    else if !IsProbablyText(info) then
      Exclude(BinaryContent)
    else
      match ReadText(info, codecs)
      case None => Exclude(Undecodable)
      case Some(text) => Include(text)
  }

  /** A file refused by name gets its reason whatever its contents, the decoders and the limit: later gates are not consulted. */
  lemma NameGateDecidesAlone(p: Path, a: FileInfo, ca: Codecs, ma: int, b: FileInfo, cb: Codecs, mb: int)
    requires !IsSupportedFile(p)
    ensures Classify(p, a, ca, ma) == Classify(p, b, cb, mb)
    ensures Classify(p, a, ca, ma) == Exclude(if IsPreviousOutput(p) then PreviousOutput else UnsupportedType)
  {
  }

  /** A failing `stat()` decides the verdict of a supported file whatever its contents and the limit. */
  lemma StatFailureDecidesAlone(p: Path, a: FileInfo, ca: Codecs, ma: int, b: FileInfo, cb: Codecs, mb: int)
    requires IsSupportedFile(p) && a.statError.Some? && b.statError == a.statError
    ensures Classify(p, a, ca, ma) == Classify(p, b, cb, mb) == Exclude(Failed(a.statError.value))
  {
  }

  /** The size limit is inclusive: exactly the limit passes the size gate, one byte more is refused. */
  lemma SizeLimitInclusive(p: Path, info: FileInfo, codecs: Codecs, maxSizeMb: int)
    requires IsSupportedFile(p) && info.statError.None?
    ensures |info.content| == MaxSizeBytes(maxSizeMb) ==> !Classify(p, info, codecs, maxSizeMb).Exclude? || Classify(p, info, codecs, maxSizeMb).reason != TooLarge(maxSizeMb)
    ensures |info.content| == MaxSizeBytes(maxSizeMb) + 1 ==> Classify(p, info, codecs, maxSizeMb) == Exclude(TooLarge(maxSizeMb))
  {
  }

  /** Raising the limit changes only the verdicts that were "too large". */
  lemma RaisingTheLimit(p: Path, info: FileInfo, codecs: Codecs, low: int, high: int)
    requires low <= high
    requires !Classify(p, info, codecs, low).Exclude? || !Classify(p, info, codecs, low).reason.TooLarge?
    ensures Classify(p, info, codecs, high) == Classify(p, info, codecs, low)
  {
    if IsSupportedFile(p) {
      RaisingTheContentLimit(info, codecs, low, high);
    }
  }

  lemma RaisingTheContentLimit(info: FileInfo, codecs: Codecs, low: int, high: int)
    requires low <= high
    requires !ContentVerdict(info, codecs, low).Exclude? || !ContentVerdict(info, codecs, low).reason.TooLarge?
    ensures ContentVerdict(info, codecs, high) == ContentVerdict(info, codecs, low)
  {
    if info.statError.None? {
      assert |info.content| <= MaxSizeBytes(low) <= MaxSizeBytes(high);
    }
  }

  /** "Encoding not supported" is never the verdict: a file that passes the sniffer was opened, so latin-1 reads it. */
  lemma UndecodableIsUnreachable(p: Path, info: FileInfo, codecs: Codecs, maxSizeMb: int)
    ensures Classify(p, info, codecs, maxSizeMb) != Exclude(Undecodable)
  {
    NoTextIffUnreadable(info, codecs);
  }

  /** A file is included, with text `t`, exactly when it passes every gate and `t` is what the decoders give. */
  lemma IncludedIffEveryGatePasses(p: Path, info: FileInfo, codecs: Codecs, maxSizeMb: int, t: string)
    ensures Classify(p, info, codecs, maxSizeMb) == Include(t)
            <==> && IsSupportedFile(p) && info.statError.None?
                 && |info.content| <= MaxSizeBytes(maxSizeMb)
                 && IsProbablyText(info) && ReadText(info, codecs) == Some(t)
  {
  }

  /** The body of the loop's `try`: each gate in turn, leaving with the first refusal. */
  method JudgeFile(p: Path, info: FileInfo, codecs: Codecs, maxSizeMb: int) returns (v: Verdict)
    ensures v == Classify(p, info, codecs, maxSizeMb)
  {
    if !IsSupportedFile(p) {
      if IsPreviousOutput(p) {
        return Exclude(PreviousOutput);
      }
      return Exclude(UnsupportedType);
    }
    if info.statError.Some? {
      return Exclude(Failed(info.statError.value));
    }
    if |info.content| > MaxSizeBytes(maxSizeMb) {
      return Exclude(TooLarge(maxSizeMb));
    }
    if !IsProbablyText(info) {
      return Exclude(BinaryContent);
    }
    var content := ReadTextSafely(info, codecs);
    if content.None? {
      return Exclude(Undecodable);
    }
    return Include(content.value);
  }

  /** The header, the text without trailing whitespace, and a newline: `\n=== rel ===\n` + `content.rstrip()` + `\n`. */
  function Block(relativeName: string, text: string): string
  {
    "\n=== " + relativeName + " ===\n" + TrimEnd(text, WHITESPACE) + "\n"
  }

  /** A block holds the text up to its last non-blank character, framed by the header and one newline. */
  lemma BlockShape(relativeName: string, text: string)
    ensures exists body ::
      && Block(relativeName, text) == "\n=== " + relativeName + " ===\n" + body + "\n"
      && body == text[..|body|]
      && AllIn(text[|body|..], WHITESPACE)
      && (body == [] || body[|body| - 1] !in WHITESPACE)
  {
    var body := TrimEnd(text, WHITESPACE);
    assert Block(relativeName, text) == "\n=== " + relativeName + " ===\n" + body + "\n";
  }

  /** `str(file.relative_to(base))` when `base` is an ancestor, and the bare name otherwise. */
  function RelativeName(base: Path, p: Path): string
  {
    if IsPrefix(base, p) then RelativeDisplay(p[|base|..]) else Name(p)
  }

  /** The common path of several files, or the parent of a single one. */
  function BaseDirectory(files: seq<Path>): Path
    requires |files| > 0
  {
    if |files| > 1 then CommonPath(files) else Parent(files[0])
  }

  /** The base directory is an ancestor of every selected file, so names never fall back to the bare name. */
  lemma BaseDirectoryIsAncestor(files: seq<Path>)
    requires |files| > 0
    ensures forall i :: 0 <= i < |files| ==> IsPrefix(BaseDirectory(files), files[i])
    ensures forall i :: 0 <= i < |files| ==> RelativeName(BaseDirectory(files), files[i]) == RelativeDisplay(files[i][|BaseDirectory(files)|..])
  {
    if |files| == 1 {
      assert files[0] == [] || files[0][..|files[0]| - 1] == Parent(files[0]);
    }
  }

  /** With more than one file, every common ancestor of the files is an ancestor of the base directory. */
  lemma BaseDirectoryIsDeepest(files: seq<Path>, c: Path)
    requires |files| > 1
    requires forall i :: 0 <= i < |files| ==> IsPrefix(c, files[i])
    ensures IsPrefix(c, BaseDirectory(files))
  {
    CommonPathIsDeepest(files, c);
  }

  predicate AllFiles(fs: Tree, files: seq<Path>)
  {
    forall i :: 0 <= i < |files| ==> IsFile(fs, files[i])
  }

  /** The verdict of every file of a run: the gates applied to the file's entry in the filesystem. */
  function RunVerdicts(fs: Tree, codecs: Codecs, maxSizeMb: int): Path --> Verdict
  {
    p requires IsFile(fs, p) => Classify(p, fs[p].info, codecs, maxSizeMb)
  }

  /** `verdict` is defined on every file of `files`. */
  ghost predicate Judged(verdict: Path --> Verdict, files: seq<Path>)
  {
    forall i :: 0 <= i < |files| ==> verdict.requires(files[i])
  }

  lemma RunVerdictsJudgeFiles(fs: Tree, codecs: Codecs, maxSizeMb: int, files: seq<Path>)
    requires AllFiles(fs, files)
    ensures Judged(RunVerdicts(fs, codecs, maxSizeMb), files)
    ensures forall i :: 0 <= i < |files| ==>
      RunVerdicts(fs, codecs, maxSizeMb)(files[i]) == Classify(files[i], fs[files[i]].info, codecs, maxSizeMb)
  {
  }

  /** `included_files` after the loop. */
  function IncludedFiles(files: seq<Path>, verdict: Path --> Verdict): seq<Path>
    requires Judged(verdict, files)
  {
    if files == [] then []
    else
      var front := files[..|files| - 1];
      var last := files[|files| - 1];
      IncludedFiles(front, verdict) + (if verdict(last).Include? then [last] else [])
  }

  /** `excluded_files` after the loop: each refused file with its reason. */
  function ExcludedEntries(files: seq<Path>, verdict: Path --> Verdict): seq<(Path, string)>
    requires Judged(verdict, files)
  {
    if files == [] then []
    else
      var front := files[..|files| - 1];
      var last := files[|files| - 1];
      var v := verdict(last);
      ExcludedEntries(front, verdict) + (if v.Exclude? then [(last, ReasonText(v.reason))] else [])
  }

  /** The blocks written for the files, in order. */
  function MergedBlocks(files: seq<Path>, verdict: Path --> Verdict, base: Path): string
    requires Judged(verdict, files)
  {
    if files == [] then ""
    else
      var front := files[..|files| - 1];
      var last := files[|files| - 1];
      MergedBlocks(front, verdict, base)
        + match verdict(last)
          case Include(text) => Block(RelativeName(base, last), text)
          case Exclude(_) => ""
  }

  lemma JudgedFront(verdict: Path --> Verdict, files: seq<Path>)
    requires Judged(verdict, files) && files != []
    ensures Judged(verdict, files[..|files| - 1])
  {
    assert forall i :: 0 <= i < |files| - 1 ==> files[..|files| - 1][i] == files[i];
  }

  /** Every file lands in exactly one of the two lists, so included + excluded == scanned. */
  lemma {:induction false} AccountingBalances(files: seq<Path>, verdict: Path --> Verdict)
    requires Judged(verdict, files)
    ensures |IncludedFiles(files, verdict)| + |ExcludedEntries(files, verdict)| == |files|
  {
    if files != [] {
      JudgedFront(verdict, files);
      AccountingBalances(files[..|files| - 1], verdict);
    }
  }

  /** A file is in `included_files` exactly when it is selected and its verdict includes it. */
  lemma {:induction false} IncludedMembership(files: seq<Path>, verdict: Path --> Verdict, f: Path)
    requires Judged(verdict, files)
    ensures f in IncludedFiles(files, verdict) <==> f in files && verdict(f).Include?
  {
    if files != [] {
      var front := files[..|files| - 1];
      JudgedFront(verdict, files);
      IncludedMembership(front, verdict, f);
      assert files == front + [files[|files| - 1]];
    }
  }

  /** A file is in `excluded_files` with reason `r` exactly when it is selected and its verdict refuses it for that reason. */
  lemma {:induction false} ExcludedMembership(files: seq<Path>, verdict: Path --> Verdict, f: Path, r: string)
    requires Judged(verdict, files)
    ensures (f, r) in ExcludedEntries(files, verdict)
            <==> f in files && verdict(f).Exclude? && r == ReasonText(verdict(f).reason)
  {
    if files != [] {
      var front := files[..|files| - 1];
      JudgedFront(verdict, files);
      ExcludedMembership(front, verdict, f, r);
      assert files == front + [files[|files| - 1]];
    }
  }

  /** No selected file is in both lists, and none is in neither. */
  lemma ExactlyOneList(files: seq<Path>, verdict: Path --> Verdict, f: Path)
    requires Judged(verdict, files) && f in files
    ensures f in IncludedFiles(files, verdict) <==> !exists r :: (f, r) in ExcludedEntries(files, verdict)
  {
    IncludedMembership(files, verdict, f);
    var v := verdict(f);
    if v.Exclude? {
      ExcludedMembership(files, verdict, f, ReasonText(v.reason));
    } else {
      forall r ensures (f, r) !in ExcludedEntries(files, verdict) {
        ExcludedMembership(files, verdict, f, r);
      }
    }
  }

  /** Included files keep the processing order: a sorted selection gives a sorted `included_files`. */
  lemma {:induction false} IncludedInOrder(files: seq<Path>, verdict: Path --> Verdict)
    requires Judged(verdict, files) && StrictlyIncreasing(files)
    ensures StrictlyIncreasing(IncludedFiles(files, verdict))
  {
    if files != [] {
      var front := files[..|files| - 1];
      var last := files[|files| - 1];
      JudgedFront(verdict, files);
      IncludedInOrder(front, verdict);
      var before := IncludedFiles(front, verdict);
      forall i | 0 <= i < |before| ensures PathLess(before[i], last) {
        IncludedMembership(front, verdict, before[i]);
        var k :| 0 <= k < |front| && front[k] == before[i];
        assert files[k] == front[k];
      }
    }
  }

  /** Excluded files keep the processing order too. */
  lemma {:induction false} ExcludedInOrder(files: seq<Path>, verdict: Path --> Verdict)
    requires Judged(verdict, files) && StrictlyIncreasing(files)
    ensures var e := ExcludedEntries(files, verdict);
            forall i, j :: 0 <= i < j < |e| ==> PathLess(e[i].0, e[j].0)
  {
    if files != [] {
      var front := files[..|files| - 1];
      var last := files[|files| - 1];
      JudgedFront(verdict, files);
      ExcludedInOrder(front, verdict);
      var before := ExcludedEntries(front, verdict);
      forall i | 0 <= i < |before| ensures PathLess(before[i].0, last) {
        assert before[i] in before;
        ExcludedMembership(front, verdict, before[i].0, before[i].1);
        var k :| 0 <= k < |front| && front[k] == before[i].0;
        assert files[k] == front[k];
      }
    }
  }

  /** Refused files contribute nothing: the document is the blocks of the included files alone. */
  lemma {:induction false} OnlyIncludedFilesWrite(files: seq<Path>, verdict: Path --> Verdict, base: Path)
    requires Judged(verdict, files)
    ensures Judged(verdict, IncludedFiles(files, verdict))
    ensures MergedBlocks(files, verdict, base) == MergedBlocks(IncludedFiles(files, verdict), verdict, base)
  {
    var included := IncludedFiles(files, verdict);
    forall i | 0 <= i < |included| ensures verdict.requires(included[i]) {
      IncludedMembership(files, verdict, included[i]);
    }
    if files != [] {
      var front := files[..|files| - 1];
      var last := files[|files| - 1];
      JudgedFront(verdict, files);
      OnlyIncludedFilesWrite(front, verdict, base);
      var before := IncludedFiles(front, verdict);
      if verdict(last).Include? {
        assert included == before + [last];
        assert included[..|included| - 1] == before;
        assert included[|included| - 1] == last;
        assert MergedBlocks(included, verdict, base)
            == MergedBlocks(before, verdict, base) + Block(RelativeName(base, last), verdict(last).text);
      } else {
        assert included == before;
      }
    }
  }

  /** `part` occurs in `s` at index `i`. */
  predicate OccursAt(s: string, part: string, i: nat)
  {
    i + |part| <= |s| && s[i..i + |part|] == part
  }

  /** `part` occurs somewhere in `s`. */
  ghost predicate Contains(s: string, part: string)
  {
    exists i: nat :: OccursAt(s, part, i)
  }

  lemma ContainsExtended(s: string, t: string, part: string)
    requires Contains(s, part)
    ensures Contains(s + t, part)
  {
    var i: nat :| OccursAt(s, part, i);
    assert (s + t)[i..i + |part|] == s[i..i + |part|];
    assert OccursAt(s + t, part, i);
  }

  /** The block of every included file, with its decoded text, is in the merged document. */
  lemma {:induction false} IncludedFileWritten(files: seq<Path>, verdict: Path --> Verdict, base: Path, f: Path, text: string)
    requires Judged(verdict, files) && f in files && verdict.requires(f) && verdict(f) == Include(text)
    ensures Contains(MergedBlocks(files, verdict, base), Block(RelativeName(base, f), text))
  {
    var front := files[..|files| - 1];
    var last := files[|files| - 1];
    var block := Block(RelativeName(base, f), text);
    JudgedFront(verdict, files);
    var before := MergedBlocks(front, verdict, base);
    if f == last {
      var all := MergedBlocks(files, verdict, base);
      assert all == before + block;
      assert all[|before|..|before| + |block|] == block;
      assert OccursAt(all, block, |before|);
    } else {
      assert files == front + [last];
      IncludedFileWritten(front, verdict, base, f, text);
      ContainsExtended(before, match verdict(last) case Include(t) => Block(RelativeName(base, last), t) case Exclude(_) => "", block);
    }
  }

  /** In a well-formed tree every proper ancestor of an entry is a directory. */
  lemma {:induction false} AncestorIsDir(fs: Tree, a: Path, p: Path)
    requires WellFormed(fs) && p in fs && IsPrefix(a, p) && a != p
    ensures IsDir(fs, a)
    decreases |p|
  {
    var up := Parent(p);
    assert p != [];
    if up != a {
      assert up[..|a|] == p[..|a|];
      AncestorIsDir(fs, a, up);
    }
  }

  /** The base directory of the candidates of a run exists as a directory. */
  lemma BaseDirectoryIsDir(fs: Tree, files: seq<Path>)
    requires WellFormed(fs) && |files| > 0 && AllFiles(fs, files) && StrictlyIncreasing(files)
    ensures IsDir(fs, BaseDirectory(files))
  {
    BaseDirectoryIsAncestor(files);
    var base := BaseDirectory(files);
    if |files| == 1 {
      assert files[0] != [] by { assert IsFile(fs, files[0]); }
      assert IsPrefix(base, files[0]) && base != files[0];
      AncestorIsDir(fs, base, files[0]);
    } else {
      StrictlyIncreasingHasNoDuplicates(files);
      assert files[0] != files[1];
      if base == files[0] {
        assert base != files[1];
        AncestorIsDir(fs, base, files[1]);
        assert false;
      }
      AncestorIsDir(fs, base, files[0]);
    }
  }

  /** The clock reading a stamp is made from. */
  datatype DateTime = DateTime(year: nat, month: nat, day: nat, hour: nat, minute: nat, second: nat)

  predicate ValidDateTime(t: DateTime)
  {
    && 1000 <= t.year <= 9999 && 1 <= t.month <= 12 && 1 <= t.day <= 31
    && t.hour <= 23 && t.minute <= 59 && t.second <= 59
  }

  function Digits(n: nat, width: nat): string
  {
    PadLeft(NatToString(n), width, '0')
  }

  /** `strftime('%Y%m%d-%H%M%S')` */
  function CompactStamp(t: DateTime): string
  {
    Digits(t.year, 4) + Digits(t.month, 2) + Digits(t.day, 2) + "-" + Digits(t.hour, 2) + Digits(t.minute, 2) + Digits(t.second, 2)
  }

  /** `strftime('%Y-%m-%d %H:%M:%S')` */
  function LongStamp(t: DateTime): string
  {
    Digits(t.year, 4) + "-" + Digits(t.month, 2) + "-" + Digits(t.day, 2) + " "
      + Digits(t.hour, 2) + ":" + Digits(t.minute, 2) + ":" + Digits(t.second, 2)
  }

  lemma {:induction false} LeadingZerosKeepValue(zeros: string, s: string)
    requires AllIn(zeros, {'0'}) && forall k :: 0 <= k < |s| ==> IsDigit(s[k])
    ensures forall k :: 0 <= k < |zeros + s| ==> IsDigit((zeros + s)[k])
    ensures DecimalValue(zeros + s) == DecimalValue(s)
    decreases |s|
  {
    var z := zeros + s;
    assert forall k :: 0 <= k < |z| ==> IsDigit(z[k]) by {
      forall k | 0 <= k < |z| ensures IsDigit(z[k]) {
        if k < |zeros| { assert z[k] in zeros; } else { assert z[k] == s[k - |zeros|]; }
      }
    }
    if s == [] {
      assert z == zeros;
      AllZerosValue(zeros);
    } else {
      var front := s[..|s| - 1];
      assert z[..|z| - 1] == zeros + front;
      LeadingZerosKeepValue(zeros, front);
    }
  }

  lemma {:induction false} AllZerosValue(zeros: string)
    requires AllIn(zeros, {'0'})
    ensures forall k :: 0 <= k < |zeros| ==> IsDigit(zeros[k])
    ensures DecimalValue(zeros) == 0
    decreases |zeros|
  {
    assert forall k :: 0 <= k < |zeros| ==> zeros[k] in zeros;
    if zeros != [] {
      var front := zeros[..|zeros| - 1];
      assert forall k :: 0 <= k < |front| ==> front[k] in zeros;
      AllZerosValue(front);
    }
  }

  /** A zero-padded field reads back as the number it renders. */
  lemma DigitsRoundTrip(n: nat, width: nat)
    ensures forall k :: 0 <= k < |Digits(n, width)| ==> IsDigit(Digits(n, width)[k])
    ensures DecimalValue(Digits(n, width)) == n
  {
    var s := NatToString(n);
    var d := Digits(n, width);
    var zeros := d[..|d| - |s|];
    assert d == zeros + s;
    LeadingZerosKeepValue(zeros, s);
  }

  lemma {:induction false} NatToStringShort(n: nat, width: nat)
    requires n < Power10(width) && width > 0
    ensures |NatToString(n)| <= width
    decreases width
  {
    if n >= 10 {
      NatToStringShort(n / 10, width - 1);
    }
  }

  function Power10(k: nat): nat
  {
    if k == 0 then 1 else 10 * Power10(k - 1)
  }

  /** `s` is a string of decimal digits denoting `n`. */
  predicate ReadsAs(s: string, n: nat)
  {
    (forall k :: 0 <= k < |s| ==> IsDigit(s[k])) && DecimalValue(s) == n
  }

  /** A field below `10^width` renders as exactly `width` digits that read back as the field. */
  lemma DigitsField(n: nat, width: nat)
    requires width > 0 && n < Power10(width)
    ensures |Digits(n, width)| == width
    ensures forall k :: 0 <= k < width ==> IsDigit(Digits(n, width)[k])
    ensures DecimalValue(Digits(n, width)) == n
  {
    NatToStringShort(n, width);
    DigitsRoundTrip(n, width);
  }

  /** Slicing `a + b + c + sep + d + e + f` at the field widths 4, 2, 2, 1, 2, 2, 2 gives the pieces back. */
  lemma StampSlices(a: string, b: string, c: string, sep: string, d: string, e: string, f: string)
    requires |a| == 4 && |b| == 2 && |c| == 2 && |sep| == 1 && |d| == 2 && |e| == 2 && |f| == 2
    ensures var s := a + b + c + sep + d + e + f;
      && |s| == 15 && s[8] == sep[0]
      && s[..4] == a && s[4..6] == b && s[6..8] == c
      && s[9..11] == d && s[11..13] == e && s[13..15] == f
  {
  }

  /** A valid clock reading gives a 15-character stamp `YYYYMMDD-HHMMSS` whose fields read back as the reading. */
  lemma CompactStampRoundTrip(t: DateTime)
    requires ValidDateTime(t)
    ensures var s := CompactStamp(t);
      && |s| == 15 && s[8] == '-'
      && ReadsAs(s[..4], t.year) && ReadsAs(s[4..6], t.month) && ReadsAs(s[6..8], t.day)
      && ReadsAs(s[9..11], t.hour) && ReadsAs(s[11..13], t.minute) && ReadsAs(s[13..15], t.second)
  {
    assert Power10(4) == 10000 && Power10(2) == 100;
    var y, mo, d := Digits(t.year, 4), Digits(t.month, 2), Digits(t.day, 2);
    var h, mi, se := Digits(t.hour, 2), Digits(t.minute, 2), Digits(t.second, 2);
    DigitsField(t.year, 4);
    DigitsField(t.month, 2);
    DigitsField(t.day, 2);
    DigitsField(t.hour, 2);
    DigitsField(t.minute, 2);
    DigitsField(t.second, 2);
    var s := CompactStamp(t);
    assert s == y + mo + d + "-" + h + mi + se;
    StampSlices(y, mo, d, "-", h, mi, se);
  }

  /** `output-<folder>-<stamp>.txt` */
  function OutputName(folder: string, stamp: string): string
  {
    OUTPUT_PREFIX + folder + "-" + stamp + OUTPUT_SUFFIX
  }

  /** Every default output name is recognised as a previous output, so a later run over the same folder skips it. */
  lemma OutputNameIsPreviousOutput(p: Path, folder: string, stamp: string)
    requires Name(p) == OutputName(folder, stamp)
    ensures IsPreviousOutput(p)
    ensures forall info, codecs, mb :: Classify(p, info, codecs, mb) == Exclude(PreviousOutput)
  {
    var stem := OUTPUT_PREFIX + folder + "-" + stamp;
    assert Name(p) == stem + ".txt";
    SuffixOfStemAndExtension(stem, ".txt");
    assert Name(p)[..|OUTPUT_PREFIX|] == OUTPUT_PREFIX;
    LowerFixesNonUpper(".txt");
  }

  /** A rename of the temporary file onto `target` can succeed: the directory it goes into exists and `target` is not a directory. */
  predicate CanPublish(fs: Tree, target: Path)
  {
    target != [] && IsDir(fs, Parent(target)) && !IsDir(fs, target)
  }

  /**
   * How a run ends: the argument parser refuses an empty argument list, no
   * candidate files, the document published at the output path, or the final
   * move failing and the entry point turning the exception into an exit code.
   */
  datatype Outcome = BadArguments | NoFiles | Published(outputFile: Path, document: string) | Crashed

  /** `os.replace(temporary, outputFile)`: a rename onto the output path, which fails on a missing directory or a directory target. */
  function Replace(fs: Tree, outputFile: Path, document: string): (r: Outcome)
    ensures r.Published? || r.Crashed?
    ensures r.Published? ==> r.outputFile == outputFile && r.document == document && CanPublish(fs, r.outputFile)
    ensures CanPublish(fs, outputFile) ==> r.Published?
  {
    if CanPublish(fs, outputFile) then Published(outputFile, document) else Crashed
  }

  /** Where `shutil.move` puts the temporary file `tempName`: inside the output path when that is a directory, else at it. */
  function MoveTarget(fs: Tree, outputFile: Path, tempName: string): Path
  {
    if IsDir(fs, outputFile) then outputFile + [tempName] else outputFile
  }

  /**
   * `shutil.move(temporary, outputFile)`: onto an existing directory it
   * moves the temporary file into it under its own name, and refuses when
   * that name is taken; otherwise it renames as `os.replace` does.
   */
  function Move(fs: Tree, outputFile: Path, tempName: string, document: string): (r: Outcome)
    ensures r.Published? || r.Crashed?
    ensures r.Published? ==> r.document == document && CanPublish(fs, r.outputFile)
    ensures r.Published? ==> r.outputFile == outputFile || Parent(r.outputFile) == outputFile
  {
    var target := MoveTarget(fs, outputFile, tempName);
    if IsDir(fs, outputFile) && target in fs then Crashed else Replace(fs, target, document)
  }

  /** A published move lands at the output path itself, or under the temporary file's name inside it when it is a folder. */
  lemma MovePublished(fs: Tree, outputFile: Path, tempName: string, document: string)
    requires Move(fs, outputFile, tempName, document).Published?
    ensures Move(fs, outputFile, tempName, document).outputFile == MoveTarget(fs, outputFile, tempName)
  {
  }

  /** Onto a path that is not a directory, `shutil.move` and `os.replace` agree. */
  lemma MoveAgreesWithReplace(fs: Tree, outputFile: Path, tempName: string, document: string)
    requires !IsDir(fs, outputFile)
    ensures Move(fs, outputFile, tempName, document) == Replace(fs, outputFile, document)
  {
  }

  /**
   * `-o` naming an existing folder: `shutil.move` publishes the document
   * inside it under the temporary file's name, while `os.replace` fails.
   */
  lemma MoveIntoFolder(fs: Tree, folder: Path, tempName: string, document: string)
    requires IsDir(fs, folder) && folder + [tempName] !in fs
    ensures Move(fs, folder, tempName, document) == Published(folder + [tempName], document)
    ensures Replace(fs, folder, document) == Crashed
  {
    assert Parent(folder + [tempName]) == folder;
  }

  /** A folder that already holds an entry named like the temporary file refuses the move. */
  lemma MoveIntoFolderTaken(fs: Tree, folder: Path, tempName: string, document: string)
    requires IsDir(fs, folder) && folder + [tempName] in fs
    ensures Move(fs, folder, tempName, document) == Crashed
  {
  }

  /** argparse exits with 2 on a usage error; the program's own codes are 0, 2 and 3. */
  function ExitCode(outcome: Outcome): int
  {
    match outcome
    case BadArguments => 2
    case NoFiles => EXIT_NO_FILES
    case Published(_, _) => EXIT_OK
    case Crashed => EXIT_RUNTIME_ERROR
  }
}
