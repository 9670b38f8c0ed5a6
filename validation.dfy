/**
 * Validation of an uploaded file before it is stored: the extension
 * check, the inclusive size bound, the content-type check on the first
 * bytes, and the ordered chain of all of them.
 */
module Validation {
  import opened Common
  import opened Text
  import opened Config

  // ---------------------------------------------------------------------
  // Extension

  /** Some character of `p[lo..hi]` is not a dot. */
  predicate HasNonDot(p: string, lo: int, hi: int)
    requires 0 <= lo <= hi <= |p|
  {
    exists k :: lo <= k < hi && p[k] != '.'
  }

  /**
   * The second half of POSIX `os.path.splitext(p)`: the text from the last
   * dot of the last path component, provided that component has some
   * character other than a dot before it; otherwise the empty string.
   */
  function SplitExtension(p: string): (ext: string)
    ensures ext == [] || (ext[0] == '.' && '.' !in ext[1..] && '/' !in ext)
  {
    var sepIndex := RFind(p, '/');
    var dotIndex := RFind(p, '.');
    if dotIndex > sepIndex && HasNonDot(p, sepIndex + 1, dotIndex) then
      assert forall k :: dotIndex < k < |p| ==> p[k] != '.' && p[k] != '/';
      p[dotIndex..]
    else ""
  }

  /** `os.path.splitext(filename)[1].lower().lstrip('.')`. */
  function ExtensionOf(filename: string): string {
    StripLeading(Lower(SplitExtension(filename)), '.')
  }

  /** `validate_file_extension`: the extension is one of the allowed ones. */
  predicate ValidateFileExtension(filename: string, settings: Settings) {
    ExtensionOf(filename) in AllowedExtensionsList(settings)
  }

  lemma LowerKeepsPunctuation(x: char, c: char)
    requires c == '.' || c == '/'
    ensures LowerChar(x) == c <==> x == c
  {
  }

  lemma {:induction false} RFindLower(s: string, c: char)
    requires c == '.' || c == '/'
    ensures RFind(Lower(s), c) == RFind(s, c)
  {
    if |s| > 0 {
      LowerKeepsPunctuation(s[|s| - 1], c);
      assert Lower(s)[..|s| - 1] == Lower(s[..|s| - 1]);
      RFindLower(s[..|s| - 1], c);
    }
  }

  lemma SplitExtensionLower(p: string)
    ensures SplitExtension(Lower(p)) == Lower(SplitExtension(p))
  {
    RFindLower(p, '/');
    RFindLower(p, '.');
    var sepIndex := RFind(p, '/');
    var dotIndex := RFind(p, '.');
    if dotIndex > sepIndex {
      forall k | sepIndex + 1 <= k < dotIndex
        ensures Lower(p)[k] != '.' <==> p[k] != '.'
      {
        LowerKeepsPunctuation(p[k], '.');
      }
      assert HasNonDot(Lower(p), sepIndex + 1, dotIndex) == HasNonDot(p, sepIndex + 1, dotIndex);
      LowerSlice(p, dotIndex, |p|);
    }
  }

  /** The extension check ignores case: `DATA.CSV` is judged like `data.csv`. */
  lemma ExtensionCaseInsensitive(filename: string, settings: Settings)
    ensures ValidateFileExtension(Lower(filename), settings) == ValidateFileExtension(filename, settings)
  {
    SplitExtensionLower(filename);
    LowerIdempotent(SplitExtension(filename));
  }

  /** The last index holding `c` is the one `RFind` reports. */
  lemma RFindLast(s: string, c: char, i: int)
    requires 0 <= i < |s| && s[i] == c
    requires forall k :: i < k < |s| ==> s[k] != c
    ensures RFind(s, c) == i
  {
  }

  /** `RFind` reports -1 for a character that does not occur. */
  lemma RFindAbsent(s: string, c: char)
    requires forall k :: 0 <= k < |s| ==> s[k] != c
    ensures RFind(s, c) == -1
  {
  }

  /**
   * In a path without '/', a last dot at `d` preceded by some character
   * other than a dot starts the extension.
   */
  lemma SplitExtensionAt(p: string, d: int)
    requires 0 <= d < |p| && p[d] == '.'
    requires forall k :: 0 <= k < |p| ==> p[k] != '/'
    requires forall k :: d < k < |p| ==> p[k] != '.'
    requires HasNonDot(p, 0, d)
    ensures SplitExtension(p) == p[d..]
  {
    RFindLast(p, '.', d);
    RFindAbsent(p, '/');
  }

  /** Dropping the leading dot of `"." + x`, where `x` has no dot. */
  lemma StripLeadingDot(x: string)
    requires forall k :: 0 <= k < |x| ==> x[k] != '.'
    ensures StripLeading("." + x, '.') == x
  {
    assert ("." + x)[1..] == x;
  }

  /**
   * Only the final suffix counts: for a name whose last component has a
   * character other than a dot before its last dot, the extension is the
   * lower-cased text after that dot.
   */
  lemma ExtensionOfFinalSuffix(stem: string, e: string)
    requires '/' !in stem && exists k :: 0 <= k < |stem| && stem[k] != '.'
    requires '.' !in e && '/' !in e
    ensures ExtensionOf(stem + "." + e) == Lower(e)
  {
    var p := stem + "." + e;
    var d := |stem|;
    assert forall k :: 0 <= k < |p| ==> p[k] != '/' by {
      forall k | 0 <= k < |p| ensures p[k] != '/' {
        if k < d { assert p[k] == stem[k]; } else if k > d { assert p[k] == e[k - d - 1]; }
      }
    }
    assert forall k :: d < k < |p| ==> p[k] != '.' by {
      forall k | d < k < |p| ensures p[k] != '.' { assert p[k] == e[k - d - 1]; }
    }
    var w :| 0 <= w < |stem| && stem[w] != '.';
    assert p[w] == stem[w];
    SplitExtensionAt(p, d);
    assert p[d..] == "." + e;
    LowerAppend(".", e);
    var le := Lower(e);
    forall k | 0 <= k < |le| ensures le[k] != '.' {
      LowerKeepsPunctuation(e[k], '.');
    }
    StripLeadingDot(le);
  }

  /** A name without any dot has the empty extension. */
  lemma ExtensionOfNoDot(filename: string)
    requires '.' !in filename
    ensures ExtensionOf(filename) == ""
  {
  }

  /**
   * A dot-file such as `.csv` (only dots before its last dot) has the
   * empty extension as well.
   */
  lemma ExtensionOfDotFile(dots: string, e: string)
    requires |dots| > 0 && forall k :: 0 <= k < |dots| ==> dots[k] == '.'
    requires '.' !in e && '/' !in e
    ensures ExtensionOf(dots + e) == ""
  {
    var p := dots + e;
    assert p[|dots| - 1] == '.';
    assert forall k :: |dots| <= k < |p| ==> p[k] == e[k - |dots|];
    assert RFind(p, '.') == |dots| - 1;
    assert forall k :: 0 <= k < |p| ==> p[k] != '/';
    assert RFind(p, '/') == -1;
    assert !HasNonDot(p, 0, |dots| - 1);
  }

  /** So such names pass only when the empty extension is itself allowed. */
  lemma NoExtensionRejected(filename: string, settings: Settings)
    requires ExtensionOf(filename) == ""
    ensures ValidateFileExtension(filename, settings) <==> "" in AllowedExtensionsList(settings)
  {
  }

  // ---------------------------------------------------------------------
  // The uploaded file and its cursor

  /**
   * The request's upload: its client-side name and the spooled body with
   * a read/seek position.
   */
  class UploadFile {
    var filename: Option<string>
    var content: seq<byte>
    var position: nat

    constructor (filename: Option<string>, content: seq<byte>)
      ensures this.filename == filename && this.content == content && position == 0
    {
      this.filename := filename;
      this.content := content;
      position := 0;
    }

    /** `seek(offset)`. */
    method SeekStart(offset: nat)
      modifies this`position
      ensures position == offset
    {
      position := offset;
    }

    /** `seek(0, 2)`. */
    method SeekEnd()
      modifies this`position
      ensures position == |content|
    {
      position := |content|;
    }

    /** `tell()`. */
    method Tell() returns (p: nat)
      ensures p == position
    {
      p := position;
    }

    /** `read(n)`; a negative `n` reads to the end. */
    method Read(n: int) returns (data: seq<byte>)
      modifies this`position
      ensures old(position) >= |content| ==> data == [] && position == old(position)
      ensures old(position) < |content| ==>
        var stop := if n < 0 then |content| else Min(|content|, old(position) + n);
        data == content[old(position)..stop] && position == stop
    {
      if position < |content| {
        var stop := if n < 0 then |content| else Min(|content|, position + n);
        data := content[position..stop];
        position := stop;
      } else {
        data := [];
      }
    }
  }

  /** `validate_file_size`: the body is at most the limit, bounds included. */
  method ValidateFileSize(file: UploadFile, settings: Settings) returns (ok: bool)
    modifies file`position
    ensures ok == (|file.content| <= MaxFileSizeBytes(settings))
    ensures file.position == 0
  {
    file.SeekEnd();
    var size := file.Tell();
    file.SeekStart(0);
    var maxSize := settings.maxFileSizeMB * 1024 * 1024;
    ok := size <= maxSize;
  }

  /** The detected MIME types accepted, with the extensions each stands for. */
  const AllowedMimeTypes: map<string, seq<string>> := map[
    "text/csv" := [".csv"],
    "application/vnd.ms-excel" := [".xls"],
    "application/vnd.openxmlformats-officedocument.spreadsheetml.sheet" := [".xlsx"],
    "text/plain" := [".csv"]]

  /** The bytes handed to the content sniffer: at most the first 2048. */
  function Header(content: seq<byte>): seq<byte> {
    content[..Min(2048, |content|)]
  }

  /**
   * The content-type verdict for a detection outcome: `None` stands for a
   * detector that raised, in which case the extension check decides.
   */
  predicate ContentTypeAccepted(mime: Option<string>, filename: string, settings: Settings) {
    match mime
    case Some(m) => m in AllowedMimeTypes
    case None => ValidateFileExtension(filename, settings)
  }

  /**
   * `validate_file_type`: sniff the first 2048 bytes with `detect` and
   * accept a known MIME type; the cursor is back at 0 afterwards.
   */
  method ValidateFileType(file: UploadFile, settings: Settings, detect: seq<byte> -> Option<string>)
    returns (ok: bool)
    requires file.filename.Some?
    modifies file`position
    ensures ok == ContentTypeAccepted(detect(Header(file.content)), file.filename.value, settings)
    ensures file.position == 0
  {
    file.SeekStart(0);
    var header := file.Read(2048);
    file.SeekStart(0);
    assert header == Header(file.content);
    var mime := detect(header);
    match mime {
      case Some(m) =>
        ok := m in AllowedMimeTypes;
      case None =>
        ok := ValidateFileExtension(file.filename.value, settings);
    }
  }

  // ---------------------------------------------------------------------
  // The whole chain

  const NoFileMessage := "No file provided"
  const FilenameRequiredMessage := "Filename is required"
  const ContentMismatchMessage := "File content doesn't match extension. Possible file corruption or security risk."
  const ValidMessage := "File is valid"

  function ExtensionMessage(settings: Settings): string {
    "File type not allowed. Allowed types: " + Join(AllowedExtensionsList(settings), ", ")
  }

  function SizeMessage(settings: Settings): string {
    "File too large. Maximum size: " + IntToString(settings.maxFileSizeMB) + "MB"
  }

  /**
   * The verdict of `validate_upload_file` on a request: whether a file is
   * present, its name, its size in bytes and what the sniffer reports on
   * its first bytes. The checks run in a fixed order and the first one
   * that fails supplies the message.
   */
  function UploadVerdict(present: bool, filename: Option<string>, size: nat,
                         mime: Option<string>, settings: Settings): (bool, string)
  {
    if !present then (false, NoFileMessage)
    else if filename.None? || filename.value == "" then (false, FilenameRequiredMessage)
    else if !ValidateFileExtension(filename.value, settings) then (false, ExtensionMessage(settings))
    else if !(size <= MaxFileSizeBytes(settings)) then (false, SizeMessage(settings))
    else if !ContentTypeAccepted(mime, filename.value, settings) then (false, ContentMismatchMessage)
    else (true, ValidMessage)
  }

  /** `validate_upload_file`. */
  method ValidateUploadFile(file: UploadFile?, settings: Settings, detect: seq<byte> -> Option<string>)
    returns (valid: bool, message: string)
    modifies file
    ensures file == null ==> (valid, message) == UploadVerdict(false, None, 0, None, settings)
    ensures file != null ==>
      (valid, message) == UploadVerdict(true, file.filename, |file.content|, detect(Header(file.content)), settings)
    ensures file != null ==> file.filename == old(file.filename) && file.content == old(file.content)
    ensures file != null ==>
      file.position == if file.filename.Some? && file.filename.value != ""
                          && ValidateFileExtension(file.filename.value, settings)
                       then 0 else old(file.position)
  {
    if file == null {
      return false, NoFileMessage;
    }
    if file.filename.None? || file.filename.value == "" {
      return false, FilenameRequiredMessage;
    }
    if !ValidateFileExtension(file.filename.value, settings) {
      var allowed := Join(AllowedExtensionsList(settings), ", ");
      return false, "File type not allowed. Allowed types: " + allowed;
    }
    var sizeOk := ValidateFileSize(file, settings);
    if !sizeOk {
      return false, "File too large. Maximum size: " + IntToString(settings.maxFileSizeMB) + "MB";
    }
    var typeOk := ValidateFileType(file, settings, detect);
    if !typeOk {
      return false, ContentMismatchMessage;
    }
    return true, ValidMessage;
  }

  // ---------------------------------------------------------------------
  // Properties of the chain

  /** A file is valid exactly when every check passes, and then the message says so. */
  lemma UploadVerdictValidIff(present: bool, filename: Option<string>, size: nat,
                              mime: Option<string>, settings: Settings)
    ensures UploadVerdict(present, filename, size, mime, settings).0 <==>
      present && filename.Some? && filename.value != ""
      && ValidateFileExtension(filename.value, settings)
      && size <= MaxFileSizeBytes(settings)
      && ContentTypeAccepted(mime, filename.value, settings)
    ensures UploadVerdict(present, filename, size, mime, settings).0 ==>
      UploadVerdict(present, filename, size, mime, settings).1 == ValidMessage
  {
    var v := UploadVerdict(present, filename, size, mime, settings);
    if !present || filename.None? || filename.value == "" {
      assert !v.0;
    } else {
      var name := filename.value;
      if !ValidateFileExtension(name, settings) {
        assert v == (false, ExtensionMessage(settings));
      } else if !(size <= MaxFileSizeBytes(settings)) {
        assert v == (false, SizeMessage(settings));
      } else if !ContentTypeAccepted(mime, name, settings) {
        assert v == (false, ContentMismatchMessage);
      } else {
        assert v == (true, ValidMessage);
      }
    }
  }

  /**
   * Once the extension check fails, the later checks are not consulted:
   * the verdict is the same whatever the size and the content.
   */
  lemma ExtensionFailureDecides(filename: string, size1: nat, size2: nat,
                                mime1: Option<string>, mime2: Option<string>, settings: Settings)
    requires filename != "" && !ValidateFileExtension(filename, settings)
    ensures UploadVerdict(true, Some(filename), size1, mime1, settings)
         == UploadVerdict(true, Some(filename), size2, mime2, settings)
         == (false, ExtensionMessage(settings))
  {
  }

  /** Once the size check fails, the content is not consulted. */
  lemma SizeFailureDecides(filename: string, size: nat, mime1: Option<string>, mime2: Option<string>,
                           settings: Settings)
    requires filename != "" && ValidateFileExtension(filename, settings)
    requires size > MaxFileSizeBytes(settings)
    ensures UploadVerdict(true, Some(filename), size, mime1, settings)
         == UploadVerdict(true, Some(filename), size, mime2, settings)
         == (false, SizeMessage(settings))
  {
  }

  /**
   * Inside the chain a sniffer that raises never rejects: its fallback is
   * the extension check, which has already passed.
   */
  lemma FailedDetectionNeverRejects(filename: string, size: nat, settings: Settings)
    requires filename != "" && ValidateFileExtension(filename, settings)
    requires size <= MaxFileSizeBytes(settings)
    ensures UploadVerdict(true, Some(filename), size, None, settings) == (true, ValidMessage)
  {
  }

  /** The extension failure message contains "not allowed", in any case. */
  lemma ExtensionMessageSaysNotAllowed(settings: Settings)
    ensures Contains(Lower(ExtensionMessage(settings)), "not allowed")
  {
    var rest := ". Allowed types: " + Join(AllowedExtensionsList(settings), ", ");
    assert ExtensionMessage(settings) == "File type " + "not allowed" + rest;
    LowerAppend("File type " + "not allowed", rest);
    LowerAppend("File type ", "not allowed");
    assert Lower("not allowed") == "not allowed";
    ContainsAfterPrefix(Lower("File type "), "not allowed", Lower(rest));
  }

  /** The size failure message contains "too large", in any case. */
  lemma SizeMessageSaysTooLarge(settings: Settings)
    ensures Contains(Lower(SizeMessage(settings)), "too large")
  {
    var rest := ". Maximum size: " + IntToString(settings.maxFileSizeMB) + "MB";
    assert SizeMessage(settings) == "File " + "too large" + rest;
    LowerAppend("File " + "too large", rest);
    LowerAppend("File ", "too large");
    assert Lower("too large") == "too large";
    ContainsAfterPrefix(Lower("File "), "too large", Lower(rest));
  }

  /** With the defaults, `large.csv` of 15 MB is refused as too large. */
  lemma FifteenMegabytesTooLarge(filename: string, mime: Option<string>)
    requires filename == "large.csv"
    ensures UploadVerdict(true, Some(filename), 15 * 1024 * 1024, mime, DefaultSettings)
         == (false, SizeMessage(DefaultSettings))
  {
    CsvNameAccepted(filename);
  }

  /** With the defaults, a body of exactly 10485760 bytes passes the size check. */
  lemma TenMegabytesAccepted(filename: string, mime: Option<string>)
    requires filename == "large.csv"
    requires mime.Some? ==> mime.value in AllowedMimeTypes
    ensures UploadVerdict(true, Some(filename), 10485760, mime, DefaultSettings) == (true, ValidMessage)
  {
    CsvNameAccepted(filename);
  }

  lemma CsvNameAccepted(filename: string)
    requires filename == "large.csv"
    ensures ValidateFileExtension(filename, DefaultSettings)
    ensures MaxFileSizeBytes(DefaultSettings) == 10485760
  {
    LargeCsvExtension();
    DefaultSettingsValues();
  }

  lemma LargeCsvExtension()
    ensures ExtensionOf("large.csv") == "csv"
  {
    var stem, e := "large", "csv";
    assert stem[0] != '.';
    ExtensionOfFinalSuffix(stem, e);
    assert stem + "." + e == "large.csv";
    assert Lower(e) == "csv";
  }

  lemma UpperCsvExtension()
    ensures ExtensionOf("DATA.CSV") == "csv"
  {
    var stem, e := "DATA", "CSV";
    assert stem[0] != '.';
    ExtensionOfFinalSuffix(stem, e);
    assert stem + "." + e == "DATA.CSV";
    assert Lower(e) == "csv";
  }

  lemma PdfExtension(stem: string, e: string)
    requires stem == "document" && e == "pdf"
    ensures ExtensionOf(stem + "." + e) == Lower(e) == "pdf"
  {
    assert stem[0] != '.';
    ExtensionOfFinalSuffix(stem, e);
  }

  /** With the defaults, `DATA.CSV` passes the extension check. */
  lemma UpperCaseNameAccepted(filename: string)
    requires filename == "DATA.CSV"
    ensures ValidateFileExtension(filename, DefaultSettings)
  {
    UpperCsvExtension();
    DefaultSettingsValues();
  }

  /** With the defaults, `document.pdf` fails the extension check. */
  lemma PdfNameRejected(stem: string, e: string)
    requires stem == "document" && e == "pdf"
    ensures !ValidateFileExtension(stem + "." + e, DefaultSettings)
  {
    PdfExtension(stem, e);
    DefaultSettingsValues();
  }
}
