/** The "Contents" folder of a workspace, as the converter sees it through `FileSystem`:
    whether it exists, and which file names it holds and what each deserialises to. The order
    in which `Directory.EnumerateFiles` lists them is unspecified, and the loader takes it as a
    parameter. */
module Store {
  import opened Common
  import opened Data

  /** What a stored file deserialises to; anything that is neither a sheet nor an index, or
      does not parse, is `Unreadable`. */
  datatype Stored = SheetFile(sheet: SheetData) | IndexFile(index: IndexData) | Unreadable

  /** `FileSystem.LoadFile<SheetData>`: `null` unless the file holds a sheet. */
  function LoadSheetFile(f: Stored): (r: Option<SheetData>)
    ensures r.Some? <==> f.SheetFile?
    ensures r.Some? ==> r.value == f.sheet
  {
    if f.SheetFile? then Some(f.sheet) else None
  }

  /** `FileSystem.LoadFile<IndexData>`: `null` unless the file holds an index. */
  function LoadIndexFile(f: Stored): (r: Option<IndexData>)
    ensures r.Some? <==> f.IndexFile?
    ensures r.Some? ==> r.value == f.index
  {
    if f.IndexFile? then Some(f.index) else None
  }

  class ContentDirectory {
    /** `Directory.Exists`. */
    var present: bool
    var files: map<string, Stored>

    /** A missing directory holds nothing. */
    ghost predicate Valid()
      reads this
    {
      !present ==> files == map[]
    }

    constructor (present: bool, files: map<string, Stored>)
      requires !present ==> files == map[]
      ensures Valid()
      ensures this.present == present && this.files == files
    {
      this.present, this.files := present, files;
    }

    /** `DirectoryUtility.Clean`: afterwards the directory is present and empty. */
    method Clean()
      modifies this
      ensures Valid() && present && files == map[]
    {
      present, files := true, map[];
    }

    /** `FileSystem.WriteFile` into this directory: the file of that name now holds `content`,
        and no other file changes. */
    method WriteFile(name: string, content: Stored)
      requires Valid() && present
      modifies this
      ensures Valid() && present
      ensures files == old(files)[name := content]
    {
      files := files[name := content];
    }
  }

  /** A listing `Directory.EnumerateFiles` can return for `files`: each file once, in some
      order. */
  predicate Enumerates(listing: seq<string>, files: map<string, Stored>) {
    Distinct(listing) && (forall name :: name in listing ==> name in files) && (forall name :: name in files ==> name in listing)
  }
}
