/** `DataLoader`: reading the sheet index and the stored sheets back from the content
    directory. */
module DataLoader {
  import opened Common
  import opened Data
  import opened Store
  import Path
  import Settings
  import DataWriter

  /** The index file's name: the edit workbook's name with the extension ".index". */
  function IndexFileName(s: Settings.Settings): string {
    Path.ChangeExtension(Settings.EditExcelFileName(s), IndexFileExtension)
  }

  /** `LoadSheetIndex`: `null` when the content directory is missing, otherwise whatever the
      index file holds (`null` when it is absent or is no index). */
  function LoadSheetIndex(dir: ContentDirectory, s: Settings.Settings): (r: Option<IndexData>)
    reads dir
    ensures !dir.present ==> r.None?
    ensures r.Some? ==> IndexFileName(s) in dir.files && dir.files[IndexFileName(s)] == IndexFile(r.value)
    ensures dir.present && IndexFileName(s) in dir.files && dir.files[IndexFileName(s)].IndexFile? ==> r.Some?
  {
    if !dir.present then None
    else if IndexFileName(s) in dir.files then LoadIndexFile(dir.files[IndexFileName(s)])
    else None
  }

  /** `LoadSheetData(filePath)`: the sheet a file of the directory holds, `null` otherwise. */
  function LoadSheetData(dir: ContentDirectory, name: string): (r: Option<SheetData>)
    reads dir
    ensures r.Some? <==> name in dir.files && dir.files[name].SheetFile?
    ensures r.Some? ==> dir.files[name] == SheetFile(r.value)
  {
    if name in dir.files then LoadSheetFile(dir.files[name]) else None
  }

  /** The listed files whose extension is the configured one, in listing order. */
  function Candidates(listing: seq<string>, extension: string): (r: seq<string>)
    ensures forall k :: 0 <= k < |r| ==> r[k] in listing && Path.GetExtension(r[k]) == extension
    ensures forall name :: name in listing && Path.GetExtension(name) == extension ==> name in r
    decreases |listing|
  {
    if listing == [] then []
    else
      var rest := Candidates(listing[..|listing| - 1], extension);
      var last := listing[|listing| - 1];
      if Path.GetExtension(last) == extension then rest + [last] else rest
  }

  /** The sheets the given files load as, skipping those that do not load, in order. */
  function Loaded(files: map<string, Stored>, names: seq<string>): (r: seq<SheetData>)
    ensures |r| <= |names|
    decreases |names|
  {
    if names == [] then []
    else
      var rest := Loaded(files, names[..|names| - 1]);
      var last := names[|names| - 1];
      if last in files && files[last].SheetFile? then rest + [files[last].sheet] else rest
  }

  /** The names whose files hold a sheet, in order. */
  function LoadingNames(files: map<string, Stored>, names: seq<string>): (r: seq<string>)
    ensures |r| <= |names|
    ensures forall k :: 0 <= k < |r| ==> r[k] in files && files[r[k]].SheetFile?
    ensures forall k :: 0 <= k < |r| ==> r[k] in names
    ensures forall name :: name in names && name in files && files[name].SheetFile? ==> name in r
    decreases |names|
  {
    if names == [] then []
    else
      var rest := LoadingNames(files, names[..|names| - 1]);
      var last := names[|names| - 1];
      if last in files && files[last].SheetFile? then rest + [last] else rest
  }

  /** The loaded sheets are exactly the sheets of the names whose files hold one, in order:
      the others are skipped. */
  lemma {:induction false} LoadedShape(files: map<string, Stored>, names: seq<string>)
    ensures |Loaded(files, names)| == |LoadingNames(files, names)|
    ensures forall k :: 0 <= k < |Loaded(files, names)| ==>
      files[LoadingNames(files, names)[k]] == SheetFile(Loaded(files, names)[k])
    decreases |names|
  {
    if names != [] {
      LoadedShape(files, names[..|names| - 1]);
    }
  }

  /** `LoadAllSheetData`: `null` when the content directory is missing, otherwise the sheets
      of the top-level files with the configured extension that load, in the order
      `Directory.EnumerateFiles` lists them (`listing`); an empty array when there is none. */
  method LoadAllSheetData(dir: ContentDirectory, listing: seq<string>, extension: string) returns (r: Option<seq<SheetData>>)
    ensures !dir.present ==> r.None?
    ensures dir.present ==> r == Some(Loaded(dir.files, Candidates(listing, extension)))
  {
    if !dir.present {
      return None;
    }
    var sheetFiles := Candidates(listing, extension);
    if sheetFiles == [] {
      return Some([]);
    }
    var sheets: seq<SheetData> := [];
    var i := 0;
    while i < |sheetFiles|
      invariant 0 <= i <= |sheetFiles|
      invariant sheets == Loaded(dir.files, sheetFiles[..i])
    {
      assert sheetFiles[..i + 1][..i] == sheetFiles[..i];
      var sheet := LoadSheetData(dir, sheetFiles[i]);
      if sheet.Some? {
        sheets := sheets + [sheet.value];
      }
      i := i + 1;
    }
    assert sheetFiles[..i] == sheetFiles;
    return Some(sheets);
  }

  /** Every file named in `names` holds a sheet, so each loads. */
  lemma {:induction false} LoadedAll(files: map<string, Stored>, names: seq<string>)
    requires forall k :: 0 <= k < |names| ==> names[k] in files && files[names[k]].SheetFile?
    ensures Loaded(files, names) == seq(|names|, k requires 0 <= k < |names| => files[names[k]].sheet)
    decreases |names|
  {
    if names != [] {
      LoadedAll(files, names[..|names| - 1]);
    }
  }

  /** Every name of the listing has the extension, so each is a candidate. */
  lemma {:induction false} CandidatesAll(listing: seq<string>, extension: string)
    requires forall k :: 0 <= k < |listing| ==> Path.GetExtension(listing[k]) == extension
    ensures Candidates(listing, extension) == listing
    decreases |listing|
  {
    if listing != [] {
      var init, last := listing[..|listing| - 1], listing[|listing| - 1];
      assert Candidates(init, extension) == init by {
        forall k | 0 <= k < |init| ensures Path.GetExtension(init[k]) == extension {
          assert init[k] == listing[k];
        }
        CandidatesAll(init, extension);
      }
      assert Path.GetExtension(last) == extension;
      assert init + [last] == listing;
    }
  }

  /** Every file `Written` stores is named by a qualifying sheet's name followed by the
      extension, and holds a sheet. */
  lemma {:induction false} WrittenNames(sheets: seq<SheetData>, extension: string)
    ensures forall name :: name in DataWriter.Written(sheets, extension) ==>
      exists k :: 0 <= k < |sheets| && DataWriter.Qualifies(sheets[k]) && name == DataWriter.SheetFileName(sheets[k], extension)
    ensures forall name :: name in DataWriter.Written(sheets, extension) ==>
      DataWriter.Written(sheets, extension)[name].SheetFile?
    decreases |sheets|
  {
    if sheets != [] {
      WrittenNames(sheets[..|sheets| - 1], extension);
    }
  }

  /** What `WriteAllSheetData` stores is what `LoadAllSheetData` returns, in whatever order the
      directory lists the files: one sheet per file, the file's sheet being the last qualifying
      sheet written to its name. */
  lemma LoadAfterWrite(sheets: seq<SheetData>, extension: string, listing: seq<string>)
    requires Path.ProperExtension(extension)
    requires Enumerates(listing, DataWriter.Written(sheets, extension))
    ensures
      var loaded := Loaded(DataWriter.Written(sheets, extension), Candidates(listing, extension));
      && |loaded| == |listing|
      && forall k :: 0 <= k < |listing| ==>
           DataWriter.LastWriter(sheets, extension, listing[k]).Some?
           && loaded[k] == sheets[DataWriter.LastWriter(sheets, extension, listing[k]).value]
  {
    var files := DataWriter.Written(sheets, extension);
    assert forall k :: 0 <= k < |listing| ==> Path.GetExtension(listing[k]) == extension by {
      WrittenNames(sheets, extension);
      forall k | 0 <= k < |listing| ensures Path.GetExtension(listing[k]) == extension {
        assert listing[k] in files;
        var j :| 0 <= j < |sheets| && DataWriter.Qualifies(sheets[j]) && listing[k] == DataWriter.SheetFileName(sheets[j], extension);
        Path.GetExtensionOfSuffix(sheets[j].sheetName.value, extension);
      }
    }
    assert forall k :: 0 <= k < |listing| ==> listing[k] in files && files[listing[k]].SheetFile? by {
      WrittenNames(sheets, extension);
      forall k | 0 <= k < |listing| ensures listing[k] in files && files[listing[k]].SheetFile? {
        assert listing[k] in listing;
      }
    }
    assert forall k :: 0 <= k < |listing| ==>
      DataWriter.LastWriter(sheets, extension, listing[k]).Some?
      && files[listing[k]] == SheetFile(sheets[DataWriter.LastWriter(sheets, extension, listing[k]).value]) by {
      DataWriter.WrittenFiles(sheets, extension);
    }
    CandidatesAll(listing, extension);
    LoadedAll(files, listing);
  }
}
