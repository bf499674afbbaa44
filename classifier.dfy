/**
 * The two per-file tests that need no decoding: the name classifier
 * (`is_supported_file`) and the binary sniffer (`is_probably_text_file`).
 */
module Classifier {
  import opened Strings
  import opened Paths
  import opened Config
  import opened FileSystem

  /** A file that an earlier run wrote: `output-` at the start of its name and `.txt`, in any case, as its suffix. */
  predicate IsPreviousOutput(p: Path)
  {
    StartsWith(Name(p), OUTPUT_PREFIX) && Lower(Suffix(Name(p))) == OUTPUT_SUFFIX
  }

  /** Previous outputs are refused; otherwise the lower-cased name or the lower-cased suffix must be on an allow-list. */
  predicate IsSupportedFile(p: Path)
  {
    && !IsPreviousOutput(p)
    && (Lower(Name(p)) in SUPPORTED_FILENAMES || Lower(Suffix(Name(p))) in SUPPORTED_EXTENSIONS)
  }

  /** A previous output is refused whatever the allow-lists hold, even though `.txt` is on them. */
  lemma PreviousOutputRefused(p: Path)
    requires IsPreviousOutput(p)
    ensures !IsSupportedFile(p) && Lower(Suffix(Name(p))) in SUPPORTED_EXTENSIONS
  {
  }

  /** A name made of a stem and a supported extension (in any case) is supported, unless it is a previous output. */
  lemma SupportedByExtension(p: Path, stem: string, ext: string)
    requires Name(p) == stem + ext && stem != [] && IsExtension(ext)
    requires Lower(ext) in SUPPORTED_EXTENSIONS
    requires !StartsWith(Name(p), OUTPUT_PREFIX)
    ensures IsSupportedFile(p)
  {
    SuffixOfStemAndExtension(stem, ext);
  }

  /** A name without a suffix can only be accepted through the file-name list. */
  lemma NoSuffixNeedsListedName(p: Path)
    requires Suffix(Name(p)) == ""
    ensures IsSupportedFile(p) <==> Lower(Name(p)) in SUPPORTED_FILENAMES
  {
    assert Lower("") == "";
  }

  lemma NoDotNoSuffix(name: string)
    requires '.' !in name
    ensures Suffix(name) == ""
  {
    assert LastIndexOf(name, '.') == -1;
  }

  /** A dot file has no suffix, so `.env` is accepted through the file-name list... */
  lemma DotEnvAccepted(p: Path)
    requires Name(p) == ".env"
    ensures IsSupportedFile(p)
  {
    DotFileHasNoSuffix("env");
    assert "." + "env" == ".env";
    NoSuffixNeedsListedName(p);
    LowerFixesNonUpper(".env");
  }

  /** ...and a file named just `.py` is refused. */
  lemma DotPyRefused(q: Path)
    requires Name(q) == ".py"
    ensures !IsSupportedFile(q)
  {
    DotPyUnlisted();
    NoSuffixNeedsListedName(q);
  }

  lemma DotPyUnlisted()
    ensures Suffix(".py") == "" && Lower(".py") !in SUPPORTED_FILENAMES
  {
    DotFileHasNoSuffix("py");
    assert "." + "py" == ".py";
    LowerFixesNonUpper(".py");
  }

  /** `Dockerfile` is matched by name in any case... */
  lemma DockerfileAccepted(p: Path)
    requires Name(p) == "Dockerfile"
    ensures IsSupportedFile(p)
  {
    DockerfileLower();
    assert Lower(Name(p)) in SUPPORTED_FILENAMES;
    assert Name(p)[0] != OUTPUT_PREFIX[0];
    assert !IsPreviousOutput(p);
  }

  lemma DockerfileLower()
    ensures Lower("Dockerfile") == "dockerfile"
  {
    assert "Dockerfile" == ['D'] + "ockerfile";
    LowerCons('D', "ockerfile");
    LowerFixesNonUpper("ockerfile");
    assert ['d'] + "ockerfile" == "dockerfile";
  }

  /** ...while `Makefile` has no suffix and is not on the name list. */
  lemma MakefileRefused(m: Path)
    requires Name(m) == "Makefile"
    ensures !IsSupportedFile(m)
  {
    MakefileUnlisted();
    NoSuffixNeedsListedName(m);
  }

  lemma MakefileUnlisted()
    ensures Suffix("Makefile") == "" && Lower("Makefile") !in SUPPORTED_FILENAMES
  {
    NoDotNoSuffix("Makefile");
    assert "Makefile" == ['M'] + "akefile";
    LowerCons('M', "akefile");
    LowerFixesNonUpper("akefile");
    assert ['m'] + "akefile" == "makefile";
  }

  /** `output-notes.TXT` is a previous output... */
  lemma UpperCaseTxtIsPreviousOutput(p: Path)
    requires Name(p) == "output-notes.TXT"
    ensures IsPreviousOutput(p)
  {
    SuffixOfStemAndExtension("output-notes", ".TXT");
    assert "output-notes" + ".TXT" == "output-notes.TXT";
    assert Name(p)[..7] == OUTPUT_PREFIX;
    assert Lower(".TXT") == ".txt";
  }

  /** ...while a name that starts with `output-` but has another supported suffix, such as `output-notes.md`, is an ordinary supported file. */
  lemma OutputPrefixNeedsTxt(q: Path, stem: string, ext: string)
    requires Name(q) == OUTPUT_PREFIX + stem + ext && IsExtension(ext)
    requires Lower(ext) != OUTPUT_SUFFIX && Lower(ext) in SUPPORTED_EXTENSIONS
    ensures !IsPreviousOutput(q) && IsSupportedFile(q)
  {
    SuffixOfStemAndExtension(OUTPUT_PREFIX + stem, ext);
  }

  /** Tab, line feed, carriage return and the printable ASCII range. */
  predicate IsPrintableByte(b: byte)
  {
    b == 9 || b == 10 || b == 13 || (32 <= b <= 126)
  }

  /** The number of printable bytes in `s`. */
  function CountPrintable(s: seq<byte>): (n: nat)
    ensures n <= |s|
    ensures n == |s| <==> forall k :: 0 <= k < |s| ==> IsPrintableByte(s[k])
    ensures n == 0 <==> forall k :: 0 <= k < |s| ==> !IsPrintableByte(s[k])
  {
    if s == [] then 0
    else
      var front := s[..|s| - 1];
      assert forall k :: 0 <= k < |front| ==> front[k] == s[k];
      CountPrintable(front) + (if IsPrintableByte(s[|s| - 1]) then 1 else 0)
  }

  lemma {:induction false} CountPrintableAppend(a: seq<byte>, b: seq<byte>)
    ensures CountPrintable(a + b) == CountPrintable(a) + CountPrintable(b)
    decreases |b|
  {
    if b == [] {
      assert a + b == a;
    } else {
      var front := b[..|b| - 1];
      assert (a + b)[..|a + b| - 1] == a + front;
      CountPrintableAppend(a, front);
    }
  }

  /** `file.read(BINARY_SAMPLE_SIZE)`: the first 8192 bytes, or the whole file if it is shorter. */
  function Sample(content: seq<byte>): seq<byte>
  {
    if |content| <= BINARY_SAMPLE_SIZE then content else content[..BINARY_SAMPLE_SIZE]
  }

  /**
   * The sniffer: an unreadable file is binary, an empty sample is text, and
   * otherwise at least 85 out of every 100 sampled bytes must be printable.
   */
  predicate IsProbablyText(info: FileInfo)
  {
    && info.readable
    && var s := Sample(info.content);
       s == [] || 100 * CountPrintable(s) >= 85 * |s|
  }

  /** The sniffer as the source writes it: the ratio printable / sampled compared with the real threshold. */
  ghost predicate RatioTest(info: FileInfo)
  {
    && info.readable
    && var s := Sample(info.content);
       s == [] || (CountPrintable(s) as real) / (|s| as real) >= TEXT_DETECTION_THRESHOLD
  }

  lemma RealDivAtLeast(a: real, b: real, c: real)
    requires b > 0.0
    ensures a / b >= c <==> a >= c * b
  {
    var q := a / b;
    assert q * b == a;
    if q >= c {
      assert q * b >= c * b;
    } else {
      assert q * b < c * b;
    }
  }

  /** For a positive count the ratio test and the integer cross-multiplication agree. */
  lemma ThresholdIsIntegerTest(printable: nat, n: nat)
    requires n > 0
    ensures (printable as real) / (n as real) >= TEXT_DETECTION_THRESHOLD <==> 100 * printable >= 85 * n
  {
    RealDivAtLeast(printable as real, n as real, TEXT_DETECTION_THRESHOLD);
    assert (100 * printable) as real == 100.0 * (printable as real);
    assert (85 * n) as real == 85.0 * (n as real);
  }

  lemma SniffIsRatioTest(info: FileInfo)
    ensures IsProbablyText(info) <==> RatioTest(info)
  {
    var s := Sample(info.content);
    if s != [] {
      ThresholdIsIntegerTest(CountPrintable(s), |s|);
    }
  }

  /** A readable empty file is text; an unreadable file never is. */
  lemma EmptyAndUnreadable(info: FileInfo)
    ensures info.readable && info.content == [] ==> IsProbablyText(info)
    ensures !info.readable ==> !IsProbablyText(info)
  {
  }

  /** A readable file whose sampled bytes are all printable is text. */
  lemma AllPrintableIsText(info: FileInfo)
    requires info.readable
    requires forall k :: 0 <= k < |Sample(info.content)| ==> IsPrintableByte(Sample(info.content)[k])
    ensures IsProbablyText(info)
  {
  }

  /** A non-empty file whose sampled bytes are all unprintable is binary. */
  lemma NoPrintableIsBinary(info: FileInfo)
    requires info.content != []
    requires forall k :: 0 <= k < |Sample(info.content)| ==> !IsPrintableByte(Sample(info.content)[k])
    ensures !IsProbablyText(info)
  {
    assert |Sample(info.content)| > 0;
  }

  /** Bytes beyond the first 8192 never change the verdict. */
  lemma OnlySampleMatters(a: FileInfo, b: FileInfo)
    requires a.readable == b.readable
    requires |a.content| >= BINARY_SAMPLE_SIZE && |b.content| >= BINARY_SAMPLE_SIZE
    requires a.content[..BINARY_SAMPLE_SIZE] == b.content[..BINARY_SAMPLE_SIZE]
    ensures IsProbablyText(a) <==> IsProbablyText(b)
  {
    assert Sample(a.content) == Sample(b.content);
  }

  function Uniform(n: nat, b: byte): (s: seq<byte>)
    ensures |s| == n && forall k :: 0 <= k < n ==> s[k] == b
  {
    seq(n, _ => b)
  }

  lemma {:induction false} CountUniform(n: nat, b: byte)
    ensures CountPrintable(Uniform(n, b)) == if IsPrintableByte(b) then n else 0
  {
  }

  /** The threshold is inclusive: 85 letters and 15 NUL bytes are text, 84 letters and 16 NUL bytes are not. */
  lemma ThresholdBoundary(text: FileInfo, binary: FileInfo)
    requires text.readable && text.content == Uniform(85, 65) + Uniform(15, 0)
    requires binary.readable && binary.content == Uniform(84, 65) + Uniform(16, 0)
    ensures IsProbablyText(text) && !IsProbablyText(binary)
  {
    CountPrintableAppend(Uniform(85, 65), Uniform(15, 0));
    CountUniform(85, 65);
    CountUniform(15, 0);
    CountPrintableAppend(Uniform(84, 65), Uniform(16, 0));
    CountUniform(84, 65);
    CountUniform(16, 0);
  }
}
