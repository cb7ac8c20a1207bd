/** `DataWriter`: the sheet index and the per-sheet files of the content directory. */
module DataWriter {
  import opened Common
  import opened Data
  import opened Store

  /** A sheet gets a file when it has a sheet name and at least one record. */
  predicate Qualifies(sheet: SheetData) {
    !IsNullOrEmpty(sheet.sheetName) && sheet.records.Some? && |sheet.records.value| > 0
  }

  /** The file a qualifying sheet is written to: its sheet name followed by the extension. */
  function SheetFileName(sheet: SheetData, extension: string): string
    requires !IsNullOrEmpty(sheet.sheetName)
  {
    sheet.sheetName.value + extension
  }

  /** The files the writes of `sheets`, in order, leave in an empty directory. */
  function Written(sheets: seq<SheetData>, extension: string): map<string, Stored>
    decreases |sheets|
  {
    if sheets == [] then map[]
    else
      var before := Written(sheets[..|sheets| - 1], extension);
      var sheet := sheets[|sheets| - 1];
      if !Qualifies(sheet) then before
      else before[SheetFileName(sheet, extension) := SheetFile(sheet)]
  }

  /** Index of the last qualifying sheet that is written to `name`, if any. */
  function LastWriter(sheets: seq<SheetData>, extension: string, name: string): (r: Option<nat>)
    ensures r.Some? ==>
      r.value < |sheets| && Qualifies(sheets[r.value]) && SheetFileName(sheets[r.value], extension) == name
    ensures r.Some? ==>
      forall k :: r.value < k < |sheets| && Qualifies(sheets[k]) ==> SheetFileName(sheets[k], extension) != name
    ensures r.None? ==>
      forall k :: 0 <= k < |sheets| && Qualifies(sheets[k]) ==> SheetFileName(sheets[k], extension) != name
    decreases |sheets|
  {
    if sheets == [] then None
    else
      var sheet := sheets[|sheets| - 1];
      if Qualifies(sheet) && SheetFileName(sheet, extension) == name then Some(|sheets| - 1)
      else LastWriter(sheets[..|sheets| - 1], extension, name)
  }

  /** Exactly the qualifying sheets produce files, and each file holds the last qualifying
      sheet written to its name. */
  lemma {:induction false} WrittenFiles(sheets: seq<SheetData>, extension: string)
    ensures forall name :: name in Written(sheets, extension) <==> LastWriter(sheets, extension, name).Some?
    ensures forall name :: name in Written(sheets, extension) ==>
      Written(sheets, extension)[name] == SheetFile(sheets[LastWriter(sheets, extension, name).value])
    decreases |sheets|
  {
    if sheets != [] {
      WrittenFiles(sheets[..|sheets| - 1], extension);
    }
  }

  /** `WriteSheetIndex`: `DirectoryNotFoundException` when the content directory is missing,
      otherwise the index file holds exactly the given sheet names. The index file's name is
      a parameter. */
  method WriteSheetIndex(dir: ContentDirectory, sheetNames: seq<string>, indexFileName: string) returns (r: Result<()>)
    requires dir.Valid()
    modifies dir
    ensures dir.Valid()
    ensures !old(dir.present) ==> r == Err(DirectoryNotFound) && dir.files == old(dir.files)
    ensures old(dir.present) ==> r == Ok(()) && dir.files == old(dir.files)[indexFileName := IndexFile(IndexData(sheetNames))]
    ensures dir.present == old(dir.present)
  {
    if !dir.present {
      return Err(DirectoryNotFound);
    }
    dir.WriteFile(indexFileName, IndexFile(IndexData(sheetNames)));
    return Ok(());
  }

  /** `WriteAllSheetData`: `ArgumentException` for a missing workspace; otherwise the content
      directory is cleaned first, even when there is nothing to write, and then holds exactly
      the files of the qualifying sheets. */
  method WriteAllSheetData(dir: ContentDirectory, workspace: NString, sheets: seq<SheetData>, extension: string)
    returns (r: Result<()>)
    requires dir.Valid()
    modifies dir
    ensures dir.Valid()
    ensures IsNullOrEmpty(workspace) ==>
      r == Err(Argument) && dir.present == old(dir.present) && dir.files == old(dir.files)
    ensures !IsNullOrEmpty(workspace) ==>
      r == Ok(()) && dir.present && dir.files == Written(sheets, extension)
  {
    r := CreateCleanDirectory(dir, workspace);
    if r.Err? {
      return;
    }
    r := Ok(());
    if sheets == [] {
      return;
    }
    var i := 0;
    while i < |sheets|
      invariant 0 <= i <= |sheets|
      invariant dir.Valid() && dir.present
      invariant dir.files == Written(sheets[..i], extension)
    {
      var sheet := sheets[i];
      assert sheets[..i + 1][..i] == sheets[..i];
      if !IsNullOrEmpty(sheet.sheetName) && sheet.records.Some? && |sheet.records.value| > 0 {
        dir.WriteFile(sheet.sheetName.value + extension, SheetFile(sheet));
      }
      i := i + 1;
    }
    assert sheets[..i] == sheets;
  }

  /** `CreateCleanDirectory`: `ArgumentException` for a missing or empty workspace, otherwise
      an existing, empty content directory. */
  method CreateCleanDirectory(dir: ContentDirectory, workspace: NString) returns (r: Result<()>)
    requires dir.Valid()
    modifies dir
    ensures dir.Valid()
    ensures r.Err? <==> IsNullOrEmpty(workspace)
    ensures r.Err? ==>
      r.error == Argument && dir.present == old(dir.present) && dir.files == old(dir.files)
    ensures r.Ok? ==> dir.present && dir.files == map[]
  {
    if IsNullOrEmpty(workspace) {
      return Err(Argument);
    }
    dir.Clean();
    return Ok(());
  }
}
