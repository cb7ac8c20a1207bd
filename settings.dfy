/** The settings the converter reads from its ini file, and the values derived from them: the
    storage format, the file extension of stored sheets, the edit workbook's file name and the
    list of worksheets to ignore. */
module Settings {
  import opened Common
  import opened Data
  import Path

  /** `FileSystem.Format`. */
  datatype Format = Yaml | Json

  /** The `[File]` and `[Excel]` sections of the ini file. */
  datatype Settings = Settings(
    format: string,
    editExcelFileName: string,
    origin: string,
    templateSheetName: NString,
    ignoreSheetNames: string)

  /** `FileFormat`: the lower-cased setting "yaml" or "json" picks its format, and anything
      else falls back to YAML. */
  function FileFormat(format: string): (r: Format)
    ensures r == Json <==> ToLower(format) == "json"
    ensures r == Yaml <==> ToLower(format) != "json"
  {
    var lowered := ToLower(format);
    if lowered == "yaml" then Yaml
    else if lowered == "json" then Json
    else Yaml
  }

  /** `GetFileExtension`. */
  function GetFileExtension(format: Format): (r: string)
    ensures format == Json ==> r == JsonFileExtension
    ensures format == Yaml ==> r == YamlFileExtension
    ensures Path.ProperExtension(r)
  {
    match format
    case Json => JsonFileExtension
    case Yaml => YamlFileExtension
  }

  /** `EditExcelFileName`: the configured name with its extension replaced by ".xlsx". */
  function EditExcelFileName(s: Settings): string {
    Path.ChangeExtension(s.editExcelFileName, ExcelExtension)
  }

  /** A non-empty configured name always ends up with the ".xlsx" extension; an empty one stays
      empty. */
  lemma EditExcelFileNameExtension(s: Settings)
    ensures s.editExcelFileName == "" ==> EditExcelFileName(s) == ""
    ensures s.editExcelFileName != "" ==> Path.GetExtension(EditExcelFileName(s)) == ExcelExtension
    ensures s.editExcelFileName != "" ==>
      EditExcelFileName(s)[|EditExcelFileName(s)| - |ExcelExtension|..] == ExcelExtension
  {
    if s.editExcelFileName != "" {
      Path.ChangeExtensionProperties(s.editExcelFileName, ExcelExtension);
      var stem := Path.Stem(s.editExcelFileName);
      assert EditExcelFileName(s) == stem + ExcelExtension;
      assert (stem + ExcelExtension)[|stem|..] == ExcelExtension;
    }
  }

  /** `IgnoreSheetNames` as `Load` computes it: the setting split at commas, each piece
      trimmed. */
  function IgnoreSheetNames(s: Settings): seq<string> {
    var pieces := Split(s.ignoreSheetNames, ',');
    seq(|pieces|, k requires 0 <= k < |pieces| => Trim(pieces[k], WhiteSpace))
  }

  /** One name more than there are commas, each trimmed of white space at both ends and free of
      commas. */
  lemma IgnoreSheetNamesShape(s: Settings)
    ensures |IgnoreSheetNames(s)| == Count(s.ignoreSheetNames, ',') + 1
    ensures forall k :: 0 <= k < |IgnoreSheetNames(s)| ==>
      var name := IgnoreSheetNames(s)[k];
      ',' !in name && (name != [] ==> name[0] !in WhiteSpace && name[|name| - 1] !in WhiteSpace)
  {
    var pieces := Split(s.ignoreSheetNames, ',');
    SplitCount(s.ignoreSheetNames, ',');
    SplitJoin(s.ignoreSheetNames, ',');
    forall k | 0 <= k < |pieces|
      ensures ',' !in IgnoreSheetNames(s)[k]
      ensures IgnoreSheetNames(s)[k] != [] ==>
        IgnoreSheetNames(s)[k][0] !in WhiteSpace && IgnoreSheetNames(s)[k][|IgnoreSheetNames(s)[k]| - 1] !in WhiteSpace
    {
      TrimShape(pieces[k], WhiteSpace);
      var i, j :| 0 <= i <= j <= |pieces[k]| && Trim(pieces[k], WhiteSpace) == pieces[k][i..j];
      assert ',' !in pieces[k];
    }
  }
}
