/**
 * `read_text_safely`: open the file in text mode with each encoding of a
 * fixed list in turn and keep the first one that reads to the end. The
 * utf-8, utf-8-sig, utf-16 and cp1252 decoders are taken as given partial
 * functions; latin-1 maps every byte to the character with the same code
 * and so never fails.
 */
module EncodingReader {
  import opened Wrappers
  import opened FileSystem

  datatype Encoding = Utf8 | Utf8Sig | Utf16 | Cp1252 | Latin1

  /** The order in which the encodings are tried. */
  const ENCODINGS: seq<Encoding> := [Utf8, Utf8Sig, Utf16, Cp1252, Latin1]

  /** The library decoders; `None` stands for the `UnicodeDecodeError` the decoder raises. */
  datatype Codecs = Codecs(
    utf8: seq<byte> -> Option<string>,
    utf8Sig: seq<byte> -> Option<string>,
    utf16: seq<byte> -> Option<string>,
    cp1252: seq<byte> -> Option<string>)

  /** latin-1: character number `b` for byte `b`. */
  function Latin1Decode(bytes: seq<byte>): (r: string)
    ensures |r| == |bytes| && forall k :: 0 <= k < |bytes| ==> r[k] as int == bytes[k] as int
  {
    if bytes == [] then [] else [bytes[0] as int as char] + Latin1Decode(bytes[1..])
  }

  /** The latin-1 encoder, defined on the characters below 256. */
  function Latin1Encode(s: string): (r: seq<byte>)
    requires forall k :: 0 <= k < |s| ==> s[k] as int < 256
    ensures |r| == |s| && forall k :: 0 <= k < |s| ==> r[k] as int == s[k] as int
  {
    if s == [] then [] else [s[0] as int as byte] + Latin1Encode(s[1..])
  }

  /** Nothing is lost by the latin-1 fallback: encoding its text gives the file's bytes back. */
  lemma Latin1RoundTrip(bytes: seq<byte>)
    ensures Latin1Encode(Latin1Decode(bytes)) == bytes
  {
    var text := Latin1Decode(bytes);
    assert forall k :: 0 <= k < |text| ==> text[k] as int < 256 by {
      forall k | 0 <= k < |text| ensures text[k] as int < 256 {
        assert text[k] as int == bytes[k] as int;
      }
    }
  }

  function Decode(codecs: Codecs, e: Encoding, bytes: seq<byte>): Option<string>
  {
    match e
    case Utf8 => codecs.utf8(bytes)
    case Utf8Sig => codecs.utf8Sig(bytes)
    case Utf16 => codecs.utf16(bytes)
    case Cp1252 => codecs.cp1252(bytes)
    case Latin1 => Some(Latin1Decode(bytes))
  }

  /** One attempt: `open(path, "r", encoding=e).read()`, where failing to open fails the attempt. */
  function Attempt(info: FileInfo, codecs: Codecs, e: Encoding): Option<string>
  {
    if info.readable then Decode(codecs, e, info.content) else None
  }

  /** The first successful attempt among `es`, in order. */
  function FirstSuccess(info: FileInfo, codecs: Codecs, es: seq<Encoding>): (r: Option<string>)
    ensures r.None? <==> forall k :: 0 <= k < |es| ==> Attempt(info, codecs, es[k]).None?
    ensures r.Some? ==> exists i :: 0 <= i < |es| && r == Attempt(info, codecs, es[i])
                                  && forall k :: 0 <= k < i ==> Attempt(info, codecs, es[k]).None?
  {
    if es == [] then None
    else
      var first := Attempt(info, codecs, es[0]);
      if first.Some? then
        first
      else
        var rest := FirstSuccess(info, codecs, es[1..]);
        assert forall k :: 1 <= k < |es| ==> es[k] == es[1..][k - 1];
        if rest.Some? then
          var j :| 0 <= j < |es[1..]| && rest == Attempt(info, codecs, es[1..][j])
                   && forall k :: 0 <= k < j ==> Attempt(info, codecs, es[1..][k]).None?;
          assert forall k :: 0 <= k < j + 1 ==> Attempt(info, codecs, es[k]).None? by {
            forall k | 0 <= k < j + 1 ensures Attempt(info, codecs, es[k]).None? {
              if k > 0 { assert es[k] == es[1..][k - 1]; }
            }
          }
          rest
        else
          rest
  }

  /** What `read_text_safely` returns for a file. */
  function ReadText(info: FileInfo, codecs: Codecs): Option<string>
  {
    FirstSuccess(info, codecs, ENCODINGS)
  }

  /** The loop over the encodings, returning as soon as one attempt succeeds. */
  method ReadTextSafely(info: FileInfo, codecs: Codecs) returns (r: Option<string>)
    ensures r == ReadText(info, codecs)
  {
    var i := 0;
    while i < |ENCODINGS|
      invariant 0 <= i <= |ENCODINGS|
      invariant FirstSuccess(info, codecs, ENCODINGS[i..]) == ReadText(info, codecs)
    {
      var attempt := Attempt(info, codecs, ENCODINGS[i]);
      if attempt.Some? {
        return attempt;
      }
      assert ENCODINGS[i..][1..] == ENCODINGS[i + 1..];
      i := i + 1;
    }
    return None;
  }

  /** The first encoding that succeeds decides the text, whatever the later ones would give. */
  lemma FirstSuccessWins(info: FileInfo, codecs: Codecs, i: nat)
    requires i < |ENCODINGS| && Attempt(info, codecs, ENCODINGS[i]).Some?
    requires forall k :: 0 <= k < i ==> Attempt(info, codecs, ENCODINGS[k]).None?
    ensures ReadText(info, codecs) == Attempt(info, codecs, ENCODINGS[i])
  {
    var r := ReadText(info, codecs);
    var j :| 0 <= j < |ENCODINGS| && r == Attempt(info, codecs, ENCODINGS[j])
             && forall k :: 0 <= k < j ==> Attempt(info, codecs, ENCODINGS[k]).None?;
    assert j == i;
  }

  /** Nothing is read exactly when the file cannot be opened; a readable file always yields a text. */
  lemma NoTextIffUnreadable(info: FileInfo, codecs: Codecs)
    ensures ReadText(info, codecs).None? <==> !info.readable
  {
    if info.readable {
      assert Attempt(info, codecs, ENCODINGS[4]).Some?;
    }
  }

  /** When the four library decoders all refuse the bytes, the text is their latin-1 reading. */
  lemma Latin1IsTheFallback(info: FileInfo, codecs: Codecs)
    requires info.readable
    requires codecs.utf8(info.content).None? && codecs.utf8Sig(info.content).None?
    requires codecs.utf16(info.content).None? && codecs.cp1252(info.content).None?
    ensures ReadText(info, codecs) == Some(Latin1Decode(info.content))
  {
    FirstSuccessWins(info, codecs, 4);
  }

  /** Valid utf-8 is read as utf-8, before the BOM-aware and wider decoders are tried. */
  lemma Utf8First(info: FileInfo, codecs: Codecs)
    requires info.readable && codecs.utf8(info.content).Some?
    ensures ReadText(info, codecs) == codecs.utf8(info.content)
  {
  }
}
