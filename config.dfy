/**
 * Application settings that the upload path depends on: the size limit,
 * the row limit, the upload directory, and the allowed-extension setting
 * together with its parsing into a list.
 */
module Config {
  import opened Text

  /**
   * `ALLOWED_EXTENSIONS` is declared as a string, but the property that
   * reads it also accepts any other value (which it returns unchanged);
   * that other value is modelled as a ready-made list.
   */
  datatype ExtensionsSetting = ExtensionText(text: string) | ExtensionList(items: seq<string>)

  datatype Settings = Settings(
    maxFileSizeMB: int,
    maxRows: int,
    allowedExtensions: ExtensionsSetting,
    uploadDir: string)

  /** The defaults used when the environment sets nothing. */
  const DefaultSettings: Settings :=
    Settings(10, 10000, ExtensionText("csv,xlsx,xls"), "/tmp/uploads")

  /** Strip every piece (the list comprehension's body). */
  function StripAll(pieces: seq<string>): (r: seq<string>)
    ensures |r| == |pieces|
    ensures forall i :: 0 <= i < |r| ==> r[i] == Strip(pieces[i])
  {
    if |pieces| == 0 then [] else [Strip(pieces[0])] + StripAll(pieces[1..])
  }

  /**
   * `Settings.allowed_extensions_list`: a string is split on commas and
   * every piece stripped, in order; any other value is returned as it is.
   */
  function AllowedExtensionsList(s: Settings): (r: seq<string>)
    ensures s.allowedExtensions.ExtensionList? ==> r == s.allowedExtensions.items
    ensures s.allowedExtensions.ExtensionText? ==>
      |r| == |Split(s.allowedExtensions.text, ',')|
      && forall i :: 0 <= i < |r| ==> r[i] == Strip(Split(s.allowedExtensions.text, ',')[i])
  {
    match s.allowedExtensions
    case ExtensionText(t) => StripAll(Split(t, ','))
    case ExtensionList(items) => items
  }

  /**
   * For a string setting the list has one entry more than the string has
   * commas, and no entry begins or ends with whitespace.
   */
  lemma AllowedExtensionsShape(s: Settings)
    requires s.allowedExtensions.ExtensionText?
    ensures |AllowedExtensionsList(s)| == Count(s.allowedExtensions.text, ',') + 1
    ensures forall i :: 0 <= i < |AllowedExtensionsList(s)| ==> NoOuterSpace(AllowedExtensionsList(s)[i])
  {
    SplitLength(s.allowedExtensions.text, ',');
    var r := AllowedExtensionsList(s);
    forall i | 0 <= i < |r|
      ensures NoOuterSpace(r[i])
    {
      StripSpec(Split(s.allowedExtensions.text, ',')[i]);
    }
  }

  /** Stripping pieces that carry no outer whitespace changes nothing. */
  lemma {:induction false} StripAllIdentity(pieces: seq<string>)
    requires forall i :: 0 <= i < |pieces| ==> NoOuterSpace(pieces[i])
    ensures StripAll(pieces) == pieces
  {
    if |pieces| > 0 {
      StripNoOuterSpace(pieces[0]);
      StripAllIdentity(pieces[1..]);
    }
  }

  /**
   * The entries are exactly the comma-separated pieces when the pieces
   * already carry no outer whitespace: the list, joined with commas, is
   * then the setting itself.
   */
  lemma AllowedExtensionsRoundTrip(s: Settings)
    requires s.allowedExtensions.ExtensionText?
    requires forall p :: p in Split(s.allowedExtensions.text, ',') ==> NoOuterSpace(p)
    ensures Join(AllowedExtensionsList(s), ",") == s.allowedExtensions.text
  {
    var pieces := Split(s.allowedExtensions.text, ',');
    assert forall i :: 0 <= i < |pieces| ==> pieces[i] in pieces;
    StripAllIdentity(pieces);
    JoinSplit(s.allowedExtensions.text, ',');
  }

  /** The size limit in bytes: `MAX_FILE_SIZE_MB * 1024 * 1024`. */
  function MaxFileSizeBytes(s: Settings): int {
    s.maxFileSizeMB * 1024 * 1024
  }

  /** A word that starts and ends with a lower-case letter has no outer whitespace. */
  lemma LetterEndsNoOuterSpace(w: string)
    requires |w| > 0 && 'a' <= w[0] <= 'z' && 'a' <= w[|w| - 1] <= 'z'
    ensures NoOuterSpace(w)
  {
  }

  /** Three comma-free pieces joined by commas split back into those pieces. */
  lemma SplitThree(a: string, b: string, c: string)
    requires ',' !in a && ',' !in b && ',' !in c
    ensures Split(a + [','] + b + [','] + c, ',') == [a, b, c]
  {
    SplitNoSep(c, ',');
    SplitCons(b, ',', c);
    assert a + [','] + b + [','] + c == a + [','] + (b + [','] + c);
    SplitCons(a, ',', b + [','] + c);
  }

  /** Three pieces without outer whitespace survive stripping. */
  lemma StripThree(a: string, b: string, c: string)
    requires NoOuterSpace(a) && NoOuterSpace(b) && NoOuterSpace(c)
    ensures StripAll([a, b, c]) == [a, b, c]
  {
    var pieces := [a, b, c];
    assert forall i :: 0 <= i < |pieces| ==> NoOuterSpace(pieces[i]);
    StripAllIdentity(pieces);
  }

  /** A setting of three comma-free pieces without outer whitespace lists exactly those pieces. */
  lemma ThreePieces(s: Settings, a: string, b: string, c: string)
    requires s.allowedExtensions == ExtensionText(a + [','] + b + [','] + c)
    requires ',' !in a && ',' !in b && ',' !in c
    requires NoOuterSpace(a) && NoOuterSpace(b) && NoOuterSpace(c)
    ensures AllowedExtensionsList(s) == [a, b, c]
  {
    SplitThree(a, b, c);
    StripThree(a, b, c);
  }

  /** With the defaults the extensions are csv, xlsx and xls and the limit is 10 MB. */
  lemma DefaultSettingsValues()
    ensures AllowedExtensionsList(DefaultSettings) == ["csv", "xlsx", "xls"]
    ensures MaxFileSizeBytes(DefaultSettings) == 10485760
  {
    var a, b, c := "csv", "xlsx", "xls";
    LetterEndsNoOuterSpace(a);
    LetterEndsNoOuterSpace(b);
    LetterEndsNoOuterSpace(c);
    assert DefaultSettings.allowedExtensions == ExtensionText(a + [','] + b + [','] + c);
    ThreePieces(DefaultSettings, a, b, c);
  }
}
