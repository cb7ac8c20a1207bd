/** `RecordOption`: option files that keep the comments and colours of a record's text cells
    beside the stored sheets. `Write` saves, for each record with an enum name, the cell
    information of its text cells when some of it differs from the default appearance; `Load`
    puts the information of the first option file of a record's name back onto its cells. */
module RecordOption {
  import opened Common
  import opened Data
  import opened Excel
  import CellOption
  import Path

  /** A worksheet of the converted data: its identifier and the name of its worksheet. */
  datatype ExcelSheet = ExcelSheet(sheetName: NString, displayName: NString)

  /** A record as this component reads it: its texts (only their number matters here) and the
      row it came from. */
  datatype OptionRecord = OptionRecord(enumName: NString, texts: seq<NString>, line: int)

  /** `ExcelData`: the sheets, and the records of each sheet identifier. */
  datatype ExcelData = ExcelData(sheets: seq<ExcelSheet>, records: map<string, seq<OptionRecord>>)

  /** `RecordOption.CellInfo`. */
  datatype CellInfo = CellInfo(comment: NString, fontColor: NString, backgroundColor: NString)

  /** `RecordOption.CellOption`: what one option file holds. */
  datatype OptionFile = OptionFile(recordName: NString, cellInfos: seq<Option<CellInfo>>)

  /** A file `Write` saves: the directory of the sheet (named by its identifier), the file name
      and the content. */
  datatype WrittenFile = WrittenFile(directory: string, fileName: string, content: OptionFile)

  // ----- cell information -----

  /** `GetCellInfo`: `null` exactly when the cell has no comment text and both of its colour
      codes are missing or the default; otherwise the comment and both codes as they are.
      `GetColorCode` is the same code as `CellOption.GetColorCode`. */
  function GetCellInfo(style: CellStyle): (r: Option<CellInfo>)
    ensures r.None? <==>
      && IsNullOrEmpty(CellOption.CommentText(style))
      && (IsNullOrEmpty(CellOption.GetColorCode(style.font)) || CellOption.GetColorCode(style.font).value == CellOption.DefaultFontColor)
      && (IsNullOrEmpty(CellOption.GetColorCode(style.fill)) || CellOption.GetColorCode(style.fill).value == CellOption.DefaultBackgroundColor)
    ensures r.Some? ==>
      r.value == CellInfo(CellOption.CommentText(style), CellOption.GetColorCode(style.font), CellOption.GetColorCode(style.fill))
    ensures r.None? <==> CellOption.Get(style).None?
    ensures r.Some? ==> (r.value.comment, r.value.fontColor, r.value.backgroundColor) == CellOption.Get(style).value
  {
    var comment := CellOption.CommentText(style);
    var fontColor := CellOption.GetColorCode(style.font);
    var backgroundColor := CellOption.GetColorCode(style.fill);
    if CellOption.Changed(comment, fontColor, backgroundColor) then Some(CellInfo(comment, fontColor, backgroundColor)) else None
  }

  /** The style `SetCellInfos` leaves on a cell: nothing changes for `null`; otherwise each
      non-empty field is applied as `CellOption.Set` applies it. */
  function InfoApplied(style: CellStyle, info: Option<CellInfo>): CellStyle {
    if info.None? then style
    else CellOption.Applied(style, info.value.comment, info.value.fontColor, info.value.backgroundColor)
  }

  /** `SetCellInfos` on the cell (row, column): `AddComment` throws for a cell that already has
      a comment, before anything changes. */
  method SetCellInfos(sheet: Worksheet, row: int, column: int, info: Option<CellInfo>) returns (r: Result<()>)
    modifies sheet
    ensures info.None? ==> r.Ok? && sheet.State() == old(sheet.State())
    ensures r.Err? <==> info.Some? && CellOption.CommentClash(old(sheet.Style(row, column)), info.value.comment)
    ensures r.Err? ==> r.error == InvalidOperation && sheet.State() == old(sheet.State())
    ensures info.Some? && r.Ok? ==>
      sheet.State() == WithStyle(old(sheet.State()), row, column, InfoApplied(old(sheet.Style(row, column)), info))
    ensures sheet.isProtected == old(sheet.isProtected) && sheet.tabSelected == old(sheet.tabSelected)
  {
    if info.None? {
      return Ok(());
    }
    r := CellOption.Set(sheet, row, column, info.value.comment, info.value.fontColor, info.value.backgroundColor);
  }

  /** Information put onto a cell of the default appearance reads back with its empty fields
      as `null`, and as `null` altogether when what is left is the default. */
  lemma CellInfoRoundTrip(info: CellInfo)
    requires CellOption.ColorCode(info.fontColor) && CellOption.ColorCode(info.backgroundColor)
    ensures GetCellInfo(InfoApplied(DefaultStyle, Some(info))) ==
      var kept := CellInfo(CellOption.NullIfEmpty(info.comment), CellOption.NullIfEmpty(info.fontColor),
                           CellOption.NullIfEmpty(info.backgroundColor));
      if CellOption.Changed(kept.comment, kept.fontColor, kept.backgroundColor) then Some(kept) else None
  {
    CellOption.GetAfterSet(info.comment, info.fontColor, info.backgroundColor);
  }

  // ----- Write: specification -----

  /** `GetValueOrDefault(sheetName, new RecordData[0])`. */
  function RecordsOf(data: ExcelData, sheetName: string): seq<OptionRecord> {
    if sheetName in data.records then data.records[sheetName] else []
  }

  /** The cell of text `i` of the record on row `row`. */
  function TextCell(row: int, i: int): Address {
    (row, TextStartColumn + i)
  }

  /** The cells `sheet.Cells[r, c]` can address for the `count` texts of a record: the row, and
      the column of the last text, are on the sheet. */
  predicate TextCellsAddressable(row: int, count: nat) {
    count == 0 || (1 <= row <= MaxRows && TextStartColumn + count - 1 <= MaxColumns)
  }

  /** Every text cell can be addressed exactly when the row and the last column can. */
  lemma AddressableCells(row: int, count: nat)
    ensures TextCellsAddressable(row, count) <==>
      forall i :: 0 <= i < count ==> ValidAddress(TextCell(row, i).0, TextCell(row, i).1)
  {
    if !TextCellsAddressable(row, count) {
      assert !ValidAddress(TextCell(row, count - 1).0, TextCell(row, count - 1).1);
    }
  }

  /** The cell information of the `count` text cells of row `row`. */
  function CellInfosAt(s: SheetState, row: int, count: nat): seq<Option<CellInfo>> {
    seq(count, i requires 0 <= i < count => GetCellInfo(StyleAt(s, TextCell(row, i))))
  }

  /** Whether some entry is not `null`: `cellInfos.Any(x => x != null)`. */
  predicate AnyInfo(infos: seq<Option<CellInfo>>) {
    exists i :: 0 <= i < |infos| && infos[i].Some?
  }

  /** The option file of one record, if it gets one; the cell indexer throws for a text cell
      outside the sheet. */
  function RecordFile(s: SheetState, record: OptionRecord): Result<Option<OptionFile>> {
    if IsNullOrEmpty(record.enumName) then Ok(None)
    else if !TextCellsAddressable(record.line, |record.texts|) then Err(Argument)
    else
      var infos := CellInfosAt(s, record.line, |record.texts|);
      if AnyInfo(infos) then Ok(Some(OptionFile(record.enumName, infos))) else Ok(None)
  }

  /** The files written before another sequence of writes, and how that sequence ended. */
  function Prepend(files: seq<WrittenFile>, rest: (seq<WrittenFile>, Option<Exception>)): (seq<WrittenFile>, Option<Exception>) {
    (files + rest.0, rest.1)
  }

  lemma PrependNothing(rest: (seq<WrittenFile>, Option<Exception>))
    ensures Prepend([], rest) == rest
  {
    assert [] + rest.0 == rest.0;
  }

  lemma PrependConcat(a: seq<WrittenFile>, b: seq<WrittenFile>, rest: (seq<WrittenFile>, Option<Exception>))
    ensures Prepend(a, Prepend(b, rest)) == Prepend(a + b, rest)
  {
    assert a + (b + rest.0) == (a + b) + rest.0;
  }

  /** The record loop of one sheet: the files written, in order, and the exception that ended
      it, if any. */
  function RecordFiles(s: SheetState, directory: string, records: seq<OptionRecord>, extension: string)
    : (seq<WrittenFile>, Option<Exception>)
    decreases |records|
  {
    if records == [] then ([], None)
    else match RecordFile(s, records[0])
      case Err(e) => ([], Some(e))
      case Ok(None) => RecordFiles(s, directory, records[1..], extension)
      case Ok(Some(f)) =>
        Prepend([WrittenFile(directory, records[0].enumName.value + extension, f)],
                RecordFiles(s, directory, records[1..], extension))
  }

  /** One sheet of `Write`: nothing for a sheet without identifier, without records or without
      a worksheet of its display name. */
  function SheetFiles(sheets: seq<Worksheet>, item: ExcelSheet, data: ExcelData, extension: string)
    : (seq<WrittenFile>, Option<Exception>)
    reads sheets
  {
    if IsNullOrEmpty(item.sheetName) || RecordsOf(data, item.sheetName.value) == [] || item.displayName.None? then ([], None)
    else match FindSheet(sheets, item.displayName.value)
      case None => ([], None)
      case Some(p) => RecordFiles(sheets[p].State(), item.sheetName.value, RecordsOf(data, item.sheetName.value), extension)
  }

  /** The sheet loop of `Write`. */
  function WriteFiles(sheets: seq<Worksheet>, items: seq<ExcelSheet>, data: ExcelData, extension: string)
    : (seq<WrittenFile>, Option<Exception>)
    reads sheets
    decreases |items|
  {
    if items == [] then ([], None)
    else
      var first := SheetFiles(sheets, items[0], data, extension);
      if first.1.Some? then first else Prepend(first.0, WriteFiles(sheets, items[1..], data, extension))
  }

  // ----- Write: properties -----

  /** A record gets an option file exactly when it has an enum name, its text cells can be
      addressed and one of them carries information; the file is named by the record and
      holds the information of text cell `i` at index `i`. */
  lemma RecordFileShape(s: SheetState, record: OptionRecord)
    ensures RecordFile(s, record).Err? <==>
      !IsNullOrEmpty(record.enumName) && !TextCellsAddressable(record.line, |record.texts|)
    ensures RecordFile(s, record).Ok? && RecordFile(s, record).value.Some? <==>
      && !IsNullOrEmpty(record.enumName) && TextCellsAddressable(record.line, |record.texts|)
      && exists i :: 0 <= i < |record.texts| && GetCellInfo(StyleAt(s, TextCell(record.line, i))).Some?
    ensures RecordFile(s, record).Ok? && RecordFile(s, record).value.Some? ==>
      var f := RecordFile(s, record).value.value;
      && f.recordName == record.enumName && |f.cellInfos| == |record.texts|
      && forall i :: 0 <= i < |record.texts| ==> f.cellInfos[i] == GetCellInfo(StyleAt(s, TextCell(record.line, i)))
  {
    var infos := CellInfosAt(s, record.line, |record.texts|);
    if exists i :: 0 <= i < |record.texts| && GetCellInfo(StyleAt(s, TextCell(record.line, i))).Some? {
      var i :| 0 <= i < |record.texts| && GetCellInfo(StyleAt(s, TextCell(record.line, i))).Some?;
      assert infos[i].Some?;
    }
  }

  /** Every file of a sheet's record loop is the option file of one of its records, named
      after it; when the loop ends without an exception, every record with an option file has
      written it. */
  lemma {:induction false} RecordFilesShape(s: SheetState, directory: string, records: seq<OptionRecord>, extension: string)
    ensures var (files, _) := RecordFiles(s, directory, records, extension);
      forall f :: f in files ==>
        && f.directory == directory
        && (exists j :: 0 <= j < |records| && records[j].enumName.Some?
              && RecordFile(s, records[j]) == Ok(Some(f.content)) && f.fileName == records[j].enumName.value + extension)
    ensures var (files, error) := RecordFiles(s, directory, records, extension);
      error.None? ==> forall j :: 0 <= j < |records| ==>
        RecordFile(s, records[j]).Ok? &&
        (RecordFile(s, records[j]).value.Some? ==>
          WrittenFile(directory, records[j].enumName.value + extension, RecordFile(s, records[j]).value.value) in files)
    decreases |records|
  {
    if records != [] {
      RecordFilesShape(s, directory, records[1..], extension);
      var (rest, _) := RecordFiles(s, directory, records[1..], extension);
      forall f | f in rest
        ensures exists j :: (0 <= j < |records| && records[j].enumName.Some?
          && RecordFile(s, records[j]) == Ok(Some(f.content)) && f.fileName == records[j].enumName.value + extension)
      {
        var j :| 0 <= j < |records[1..]| && records[1..][j].enumName.Some?
          && RecordFile(s, records[1..][j]) == Ok(Some(f.content)) && f.fileName == records[1..][j].enumName.value + extension;
        assert records[j + 1] == records[1..][j];
      }
      forall j | 1 <= j < |records| ensures records[j] == records[1..][j - 1] {
      }
    }
  }

  /** A sheet of `Write` whose records are saved: it has an identifier, records, a display
      name and a worksheet of that name. */
  predicate Writes(sheets: seq<Worksheet>, item: ExcelSheet, data: ExcelData)
    reads sheets
  {
    !IsNullOrEmpty(item.sheetName) && RecordsOf(data, item.sheetName.value) != [] && item.displayName.Some?
    && FindSheet(sheets, item.displayName.value).Some?
  }

  /** Over all sheets of `Write`: a sheet without identifier, records or worksheet writes
      nothing and throws nothing; every file written comes from a sheet that is written; and
      when no exception stops the loop, every sheet's files are all written. */
  lemma {:induction false} WriteFilesShape(sheets: seq<Worksheet>, items: seq<ExcelSheet>, data: ExcelData, extension: string)
    ensures forall k :: 0 <= k < |items| && !Writes(sheets, items[k], data) ==> SheetFiles(sheets, items[k], data, extension) == ([], None)
    ensures forall f :: f in WriteFiles(sheets, items, data, extension).0 ==>
      exists k :: 0 <= k < |items| && Writes(sheets, items[k], data) && f in SheetFiles(sheets, items[k], data, extension).0
    ensures WriteFiles(sheets, items, data, extension).1.None? ==>
      forall k :: 0 <= k < |items| ==>
        && SheetFiles(sheets, items[k], data, extension).1.None?
        && forall f :: f in SheetFiles(sheets, items[k], data, extension).0 ==> f in WriteFiles(sheets, items, data, extension).0
    decreases |items|
  {
    if items != [] {
      var rest := items[1..];
      WriteFilesShape(sheets, rest, data, extension);
      var first := SheetFiles(sheets, items[0], data, extension);
      var all := WriteFiles(sheets, items, data, extension);
      forall k | 1 <= k < |items| ensures items[k] == rest[k - 1] {
      }
      forall f | f in all.0
        ensures exists k :: 0 <= k < |items| && Writes(sheets, items[k], data) && f in SheetFiles(sheets, items[k], data, extension).0
      {
        if f in first.0 {
          assert Writes(sheets, items[0], data);
        } else {
          var k :| 0 <= k < |rest| && Writes(sheets, rest[k], data) && f in SheetFiles(sheets, rest[k], data, extension).0;
          assert items[k + 1] == rest[k];
        }
      }
    }
  }

  // ----- Write -----

  /** The loop that fills `cellInfos`: text cell `i` of row `row` gives entry `i`. */
  method ReadCellInfos(sheet: Worksheet, row: int, count: nat) returns (r: Result<seq<Option<CellInfo>>>)
    ensures r.Err? <==> !TextCellsAddressable(row, count)
    ensures r.Err? ==> r.error == Argument
    ensures r.Ok? ==> r.value == CellInfosAt(sheet.State(), row, count)
  {
    var cellInfos := new Option<CellInfo>[count](_ => None);
    var i := 0;
    while i < count
      invariant 0 <= i <= count
      invariant TextCellsAddressable(row, i)
      invariant forall j :: 0 <= j < i ==> cellInfos[j] == GetCellInfo(StyleAt(sheet.State(), TextCell(row, j)))
    {
      var c := TextStartColumn + i;
      if !ValidAddress(row, c) {
        return Err(Argument);
      }
      cellInfos[i] := GetCellInfo(sheet.Style(row, c));
      i := i + 1;
    }
    return Ok(cellInfos[..]);
  }

  /** The record loop of one sheet. */
  method WriteRecords(sheet: Worksheet, directory: string, records: seq<OptionRecord>, extension: string)
      returns (written: seq<WrittenFile>, r: Result<()>)
    ensures (written, if r.Err? then Some(r.error) else None) == RecordFiles(sheet.State(), directory, records, extension)
  {
    ghost var s := sheet.State();
    written := [];
    var k := 0;
    assert records[k..] == records;
    PrependNothing(RecordFiles(s, directory, records, extension));
    while k < |records|
      invariant 0 <= k <= |records|
      invariant RecordFiles(s, directory, records, extension) == Prepend(written, RecordFiles(s, directory, records[k..], extension))
    {
      var record := records[k];
      assert records[k..][0] == record && records[k..][1..] == records[k + 1..];
      if IsNullOrEmpty(record.enumName) {
        k := k + 1;
        continue;
      }
      var infos := ReadCellInfos(sheet, record.line, |record.texts|);
      if infos.Err? {
        assert written + [] == written;
        return written, Err(infos.error);
      }
      var cellOption := OptionFile(record.enumName, infos.value);
      if exists i :: 0 <= i < |cellOption.cellInfos| && cellOption.cellInfos[i].Some? {
        var file := WrittenFile(directory, record.enumName.value + extension, cellOption);
        PrependConcat(written, [file], RecordFiles(s, directory, records[k + 1..], extension));
        written := written + [file];
      }
      k := k + 1;
    }
    assert records[k..] == [];
    assert written + [] == written;
    return written, Ok(());
  }

  /** `Write`: the option files saved, in order, and the exception that stopped it, if any;
      the files written before an exception stay written. `extension` is
      `CellOptionFileExtension`. */
  method Write(book: Workbook, data: ExcelData, extension: string) returns (written: seq<WrittenFile>, r: Result<()>)
    ensures (written, if r.Err? then Some(r.error) else None) == WriteFiles(book.sheets, data.sheets, data, extension)
  {
    var items := data.sheets;
    written := [];
    var k := 0;
    assert items[k..] == items;
    PrependNothing(WriteFiles(book.sheets, items, data, extension));
    while k < |items|
      invariant 0 <= k <= |items|
      invariant WriteFiles(book.sheets, items, data, extension) == Prepend(written, WriteFiles(book.sheets, items[k..], data, extension))
    {
      var item := items[k];
      assert items[k..][0] == item && items[k..][1..] == items[k + 1..];
      PrependNothing(WriteFiles(book.sheets, items[k + 1..], data, extension));
      if IsNullOrEmpty(item.sheetName) {
        k := k + 1;
        continue;
      }
      var records := RecordsOf(data, item.sheetName.value);
      if records == [] || item.displayName.None? {
        k := k + 1;
        continue;
      }
      var found := FindSheet(book.sheets, item.displayName.value);
      if found.Some? {
        var files, result := WriteRecords(book.sheets[found.value], item.sheetName.value, records, extension);
        if result.Err? {
          return written + files, result;
        }
        PrependConcat(written, files, WriteFiles(book.sheets, items[k + 1..], data, extension));
        written := written + files;
      }
      k := k + 1;
    }
    assert items[k..] == [];
    assert written + [] == written;
    return written, Ok(());
  }

  // ----- Load: specification -----

  /** The option files of a sheet directory that `Load` uses: those with the option extension
      that load, in enumeration order. A file is a name and its content, `null` when it does not
      load. */
  function Options(files: seq<(string, Option<OptionFile>)>, extension: string): seq<OptionFile>
    decreases |files|
  {
    if files == [] then []
    else if Path.GetExtension(files[0].0) == extension && files[0].1.Some? then [files[0].1.value] + Options(files[1..], extension)
    else Options(files[1..], extension)
  }

  /** `cellOptions.FirstOrDefault(x => x.recordName == record.enumName)`. */
  function FindOption(options: seq<OptionFile>, enumName: string): (r: Option<nat>)
    ensures r.Some? ==> r.value < |options| && options[r.value].recordName == Some(enumName)
    ensures r.Some? ==> forall j :: 0 <= j < r.value ==> options[j].recordName != Some(enumName)
    ensures r.None? ==> forall j :: 0 <= j < |options| ==> options[j].recordName != Some(enumName)
  {
    if options == [] then None
    else if options[0].recordName == Some(enumName) then Some(0)
    else match FindOption(options[1..], enumName)
      case None => None
      case Some(k) => Some(k + 1)
  }

  /** `cellInfos.ElementAtOrDefault(i)`. */
  function InfoAt(infos: seq<Option<CellInfo>>, i: int): Option<CellInfo> {
    if 0 <= i < |infos| then infos[i] else None
  }

  /** The text loop of one record from text `i` on: each entry that is not `null` is put onto
      its text cell; the cell indexer throws for a cell outside the sheet, and `AddComment` for
      a comment on a cell that already has one. */
  function InfosApplied(s: SheetState, row: int, i: nat, count: nat, infos: seq<Option<CellInfo>>): Result<SheetState>
    decreases count - i
  {
    if i >= count then Ok(s)
    else if InfoAt(infos, i).None? then InfosApplied(s, row, i + 1, count, infos)
    else if !ValidAddress(row, TextStartColumn + i) then Err(Argument)
    else
      var column := TextStartColumn + i;
      var style := StyleAt(s, (row, column));
      if CellOption.CommentClash(style, InfoAt(infos, i).value.comment) then Err(InvalidOperation)
      else InfosApplied(WithStyle(s, row, column, InfoApplied(style, InfoAt(infos, i))), row, i + 1, count, infos)
  }

  /** An entry that puts a comment onto a cell that already has one. */
  predicate InfoClash(s: SheetState, row: int, infos: seq<Option<CellInfo>>, j: int) {
    InfoAt(infos, j).Some? && CellOption.CommentClash(StyleAt(s, (row, TextStartColumn + j)), InfoAt(infos, j).value.comment)
  }

  /** The record loop of one sheet: a record with an enum name takes the first option file of
      its name, if there is one. */
  function RecordsLoaded(s: SheetState, records: seq<OptionRecord>, options: seq<OptionFile>): Result<SheetState>
    decreases |records|
  {
    if records == [] then Ok(s)
    else if IsNullOrEmpty(records[0].enumName) then RecordsLoaded(s, records[1..], options)
    else match FindOption(options, records[0].enumName.value)
      case None => RecordsLoaded(s, records[1..], options)
      case Some(o) =>
        match InfosApplied(s, records[0].line, 0, |records[0].texts|, options[o].cellInfos)
        case Err(e) => Err(e)
        case Ok(t) => RecordsLoaded(t, records[1..], options)
  }

  /** The worksheet a sheet's option files go to: the first worksheet under its display name,
      when the sheet has an identifier, records, a directory and option files that load;
      `None` when `Load` skips the sheet or throws for its directory. */
  function Target(sheets: seq<Worksheet>, item: ExcelSheet, data: ExcelData,
                  directories: map<string, seq<(string, Option<OptionFile>)>>, extension: string): (r: Option<nat>)
    ensures r.Some? ==> r.value < |sheets| && item.displayName == Some(sheets[r.value].name)
    ensures r.Some? ==> forall q :: 0 <= q < r.value ==> sheets[q].name != item.displayName.value
    ensures r.None? <==>
      || IsNullOrEmpty(item.sheetName) || RecordsOf(data, item.sheetName.value) == []
      || item.sheetName.value !in directories || Options(directories[item.sheetName.value], extension) == []
      || item.displayName.None? || forall q :: 0 <= q < |sheets| ==> sheets[q].name != item.displayName.value
  {
    if IsNullOrEmpty(item.sheetName) || RecordsOf(data, item.sheetName.value) == []
       || item.sheetName.value !in directories || Options(directories[item.sheetName.value], extension) == []
       || item.displayName.None?
    then None
    else FindSheet(sheets, item.displayName.value)
  }

  /** A sheet with records whose directory is missing. */
  predicate MissingDirectory(item: ExcelSheet, data: ExcelData, directories: map<string, seq<(string, Option<OptionFile>)>>) {
    !IsNullOrEmpty(item.sheetName) && RecordsOf(data, item.sheetName.value) != [] && item.sheetName.value !in directories
  }

  /** One sheet of `Load` over the states of the worksheets: a missing directory throws
      `DirectoryNotFoundException`; otherwise the target worksheet, if there is one, takes the
      record loop over the sheet's records and option files, and every other state stays. */
  function SheetLoaded(sheets: seq<Worksheet>, states: seq<SheetState>, item: ExcelSheet, data: ExcelData,
                       directories: map<string, seq<(string, Option<OptionFile>)>>, extension: string)
    : (r: Result<seq<SheetState>>)
    requires |states| == |sheets|
    ensures MissingDirectory(item, data, directories) ==> r == Err(DirectoryNotFound)
    ensures !MissingDirectory(item, data, directories) && Target(sheets, item, data, directories, extension).None? ==>
      r == Ok(states)
    ensures Target(sheets, item, data, directories, extension).Some? ==>
      var p := Target(sheets, item, data, directories, extension).value;
      var loaded := RecordsLoaded(states[p], RecordsOf(data, item.sheetName.value),
                                  Options(directories[item.sheetName.value], extension));
      r == if loaded.Err? then Err(loaded.error) else Ok(states[p := loaded.value])
  {
    if MissingDirectory(item, data, directories) then Err(DirectoryNotFound)
    else match Target(sheets, item, data, directories, extension)
      case None => Ok(states)
      case Some(p) =>
        match RecordsLoaded(states[p], RecordsOf(data, item.sheetName.value), Options(directories[item.sheetName.value], extension))
        case Err(e) => Err(e)
        case Ok(t) => Ok(states[p := t])
  }

  /** The sheet loop of `Load`: it stops at the first exception; a worksheet no sheet targets
      keeps its state. */
  function Loaded(sheets: seq<Worksheet>, states: seq<SheetState>, items: seq<ExcelSheet>, data: ExcelData,
                  directories: map<string, seq<(string, Option<OptionFile>)>>, extension: string)
    : (r: Result<seq<SheetState>>)
    requires |states| == |sheets|
    ensures r.Ok? ==> |r.value| == |states|
    ensures r.Ok? ==> forall q :: 0 <= q < |states| && Untargeted(sheets, items, data, directories, extension, q) ==>
      r.value[q] == states[q]
    decreases |items|
  {
    if items == [] then Ok(states)
    else match SheetLoaded(sheets, states, items[0], data, directories, extension)
      case Err(e) => Err(e)
      case Ok(next) =>
        UntargetedTail(sheets, items, data, directories, extension);
        Loaded(sheets, next, items[1..], data, directories, extension)
  }

  /** No sheet of `items` targets worksheet `q`. */
  predicate Untargeted(sheets: seq<Worksheet>, items: seq<ExcelSheet>, data: ExcelData,
                       directories: map<string, seq<(string, Option<OptionFile>)>>, extension: string, q: int) {
    forall k :: 0 <= k < |items| ==> Target(sheets, items[k], data, directories, extension) != Some(q)
  }

  lemma UntargetedTail(sheets: seq<Worksheet>, items: seq<ExcelSheet>, data: ExcelData,
                       directories: map<string, seq<(string, Option<OptionFile>)>>, extension: string)
    requires items != []
    ensures forall q :: Untargeted(sheets, items, data, directories, extension, q) ==>
      Untargeted(sheets, items[1..], data, directories, extension, q)
  {
    forall q, k | Untargeted(sheets, items, data, directories, extension, q) && 0 <= k < |items[1..]|
      ensures Target(sheets, items[1..][k], data, directories, extension) != Some(q)
    {
      assert items[1..][k] == items[k + 1];
    }
  }

  function StatesOf(sheets: seq<Worksheet>): (r: seq<SheetState>)
    reads sheets
    ensures |r| == |sheets|
  {
    seq(|sheets|, p requires 0 <= p < |sheets| reads sheets => sheets[p].State())
  }

  // ----- Load: properties -----

  /** The directory entry `entry` has the option extension and loads as `f`. */
  predicate Provides(entry: (string, Option<OptionFile>), f: OptionFile, extension: string) {
    entry.1 == Some(f) && Path.GetExtension(entry.0) == extension
  }

  lemma {:induction false} OptionsMember(files: seq<(string, Option<OptionFile>)>, extension: string, f: OptionFile)
    ensures f in Options(files, extension) <==> exists k :: 0 <= k < |files| && Provides(files[k], f, extension)
    decreases |files|
  {
    if files != [] {
      var rest := files[1..];
      OptionsMember(rest, extension, f);
      if exists k :: 0 <= k < |files| && Provides(files[k], f, extension) {
        var k :| 0 <= k < |files| && Provides(files[k], f, extension);
        if k > 0 {
          assert rest[k - 1] == files[k];
        }
      }
      if exists k :: 0 <= k < |rest| && Provides(rest[k], f, extension) {
        var k :| 0 <= k < |rest| && Provides(rest[k], f, extension);
        assert files[k + 1] == rest[k];
      }
    }
  }

  /** The option files used are exactly the files with the option extension that load. */
  lemma OptionsShape(files: seq<(string, Option<OptionFile>)>, extension: string)
    ensures forall f :: f in Options(files, extension) <==>
      exists k :: 0 <= k < |files| && files[k].1 == Some(f) && Path.GetExtension(files[k].0) == extension
  {
    forall f
      ensures f in Options(files, extension) <==>
        exists k :: 0 <= k < |files| && files[k].1 == Some(f) && Path.GetExtension(files[k].0) == extension
    {
      OptionsMember(files, extension, f);
    }
  }

  /** The text loop of a record succeeds exactly when every entry that is not `null` has a
      cell and puts no comment onto a cell that already has one; otherwise the indexer's
      `ArgumentException` or `AddComment`'s `InvalidOperationException` escapes. */
  lemma {:induction false} InfosOutcome(s: SheetState, row: int, i: nat, count: nat, infos: seq<Option<CellInfo>>)
    ensures InfosApplied(s, row, i, count, infos).Ok? <==>
      forall j :: i <= j < count && InfoAt(infos, j).Some? ==> ValidAddress(row, TextStartColumn + j) && !InfoClash(s, row, infos, j)
    ensures InfosApplied(s, row, i, count, infos).Err? ==>
      InfosApplied(s, row, i, count, infos).error in {Argument, InvalidOperation}
    decreases count - i
  {
    if i < count {
      var column := TextStartColumn + i;
      if InfoAt(infos, i).None? {
        InfosOutcome(s, row, i + 1, count, infos);
      } else if !ValidAddress(row, column) {
      } else if InfoClash(s, row, infos, i) {
      } else {
        var next := WithStyle(s, row, column, InfoApplied(StyleAt(s, (row, column)), InfoAt(infos, i)));
        InfosOutcome(next, row, i + 1, count, infos);
        forall j | i < j < count ensures InfoClash(next, row, infos, j) == InfoClash(s, row, infos, j) {
          assert StyleAt(next, (row, TextStartColumn + j)) == StyleAt(s, (row, TextStartColumn + j));
        }
      }
    }
  }

  /** When the text loop of a record succeeds, each text cell from `i` on carries its entry,
      and nothing else changes. */
  lemma {:induction false} InfosShape(s: SheetState, row: int, i: nat, count: nat, infos: seq<Option<CellInfo>>)
    ensures InfosApplied(s, row, i, count, infos).Ok? ==>
      var t := InfosApplied(s, row, i, count, infos).value;
      && t.values == s.values && t.dimension == s.dimension && t.rowCount == s.rowCount && t.widths == s.widths
      && (forall j :: i <= j < count ==>
           StyleAt(t, (row, TextStartColumn + j)) == InfoApplied(StyleAt(s, (row, TextStartColumn + j)), InfoAt(infos, j)))
      && (forall a: Address :: (a.0 != row || a.1 < TextStartColumn + i || TextStartColumn + count <= a.1) ==>
           StyleAt(t, a) == StyleAt(s, a))
    decreases count - i
  {
    if i < count && InfosApplied(s, row, i, count, infos).Ok? {
      var column := TextStartColumn + i;
      var next := if InfoAt(infos, i).None? then s
        else WithStyle(s, row, column, InfoApplied(StyleAt(s, (row, column)), InfoAt(infos, i)));
      assert InfosApplied(s, row, i, count, infos) == InfosApplied(next, row, i + 1, count, infos);
      InfosShape(next, row, i + 1, count, infos);
      var t := InfosApplied(s, row, i, count, infos).value;
      forall j | i <= j < count
        ensures StyleAt(t, (row, TextStartColumn + j)) == InfoApplied(StyleAt(s, (row, TextStartColumn + j)), InfoAt(infos, j))
      {
        if j > i {
          assert StyleAt(next, (row, TextStartColumn + j)) == StyleAt(s, (row, TextStartColumn + j));
        }
      }
    }
  }

  /** A worksheet whose name is no display name of the data keeps its state. */
  lemma {:induction false} LoadedLeavesOthers(sheets: seq<Worksheet>, states: seq<SheetState>, items: seq<ExcelSheet>,
                                              data: ExcelData, directories: map<string, seq<(string, Option<OptionFile>)>>,
                                              extension: string, p: nat)
    requires |states| == |sheets| && p < |sheets|
    requires forall k :: 0 <= k < |items| ==> items[k].displayName != Some(sheets[p].name)
    requires Loaded(sheets, states, items, data, directories, extension).Ok?
    ensures Loaded(sheets, states, items, data, directories, extension).value[p] == states[p]
    decreases |items|
  {
    if items != [] {
      var next := SheetLoaded(sheets, states, items[0], data, directories, extension).value;
      assert next[p] == states[p];
      forall k | 0 <= k < |items[1..]| ensures items[1..][k].displayName != Some(sheets[p].name) {
        assert items[1..][k] == items[k + 1];
      }
      LoadedLeavesOthers(sheets, next, items[1..], data, directories, extension, p);
    }
  }

  /** A worksheet that exactly one sheet targets ends with the record loop of that sheet
      applied to its state. */
  lemma {:induction false} LoadedTarget(sheets: seq<Worksheet>, states: seq<SheetState>, items: seq<ExcelSheet>,
                                        data: ExcelData, directories: map<string, seq<(string, Option<OptionFile>)>>,
                                        extension: string, k: nat)
    requires |states| == |sheets| && k < |items|
    requires Target(sheets, items[k], data, directories, extension).Some?
    requires forall k' :: 0 <= k' < |items| && k' != k ==>
      Target(sheets, items[k'], data, directories, extension) != Target(sheets, items[k], data, directories, extension)
    requires Loaded(sheets, states, items, data, directories, extension).Ok?
    ensures var q := Target(sheets, items[k], data, directories, extension).value;
      var loaded := RecordsLoaded(states[q], RecordsOf(data, items[k].sheetName.value),
                                  Options(directories[items[k].sheetName.value], extension));
      loaded.Ok? && Loaded(sheets, states, items, data, directories, extension).value[q] == loaded.value
    decreases |items|
  {
    var q := Target(sheets, items[k], data, directories, extension).value;
    var first := SheetLoaded(sheets, states, items[0], data, directories, extension);
    assert first.Ok?;
    var next := first.value;
    var rest := items[1..];
    assert Loaded(sheets, states, items, data, directories, extension) == Loaded(sheets, next, rest, data, directories, extension);
    if k == 0 {
      assert Untargeted(sheets, rest, data, directories, extension, q) by {
        forall j | 0 <= j < |rest| ensures Target(sheets, rest[j], data, directories, extension) != Some(q) {
          assert rest[j] == items[j + 1];
        }
      }
    } else {
      assert Target(sheets, items[0], data, directories, extension) != Some(q);
      assert next[q] == states[q];
      assert rest[k - 1] == items[k];
      forall j | 0 <= j < |rest| && j != k - 1
        ensures Target(sheets, rest[j], data, directories, extension) != Target(sheets, rest[k - 1], data, directories, extension)
      {
        assert rest[j] == items[j + 1];
      }
      LoadedTarget(sheets, next, rest, data, directories, extension, k - 1);
    }
  }

  // ----- Load -----

  /** The text loop of one record. */
  method LoadInfos(sheet: Worksheet, row: int, count: nat, infos: seq<Option<CellInfo>>) returns (r: Result<()>)
    modifies sheet
    ensures r.Ok? <==> InfosApplied(old(sheet.State()), row, 0, count, infos).Ok?
    ensures r.Ok? ==> sheet.State() == InfosApplied(old(sheet.State()), row, 0, count, infos).value
    ensures r.Err? ==> r.error == InfosApplied(old(sheet.State()), row, 0, count, infos).error
    ensures sheet.isProtected == old(sheet.isProtected) && sheet.tabSelected == old(sheet.tabSelected)
  {
    var i := 0;
    while i < count
      invariant 0 <= i <= count
      invariant InfosApplied(old(sheet.State()), row, 0, count, infos) == InfosApplied(sheet.State(), row, i, count, infos)
      invariant sheet.isProtected == old(sheet.isProtected) && sheet.tabSelected == old(sheet.tabSelected)
    {
      var c := TextStartColumn + i;
      var cellInfo := InfoAt(infos, i);
      if cellInfo.Some? {
        if !ValidAddress(row, c) {
          return Err(Argument);
        }
        var written := SetCellInfos(sheet, row, c, cellInfo);
        if written.Err? {
          return written;
        }
      }
      i := i + 1;
    }
    return Ok(());
  }

  /** The record loop of one sheet. */
  method LoadRecords(sheet: Worksheet, records: seq<OptionRecord>, options: seq<OptionFile>) returns (r: Result<()>)
    modifies sheet
    ensures r.Ok? <==> RecordsLoaded(old(sheet.State()), records, options).Ok?
    ensures r.Ok? ==> sheet.State() == RecordsLoaded(old(sheet.State()), records, options).value
    ensures r.Err? ==> r.error == RecordsLoaded(old(sheet.State()), records, options).error
    ensures sheet.isProtected == old(sheet.isProtected) && sheet.tabSelected == old(sheet.tabSelected)
  {
    var k := 0;
    assert records[k..] == records;
    while k < |records|
      invariant 0 <= k <= |records|
      invariant RecordsLoaded(old(sheet.State()), records, options) == RecordsLoaded(sheet.State(), records[k..], options)
      invariant sheet.isProtected == old(sheet.isProtected) && sheet.tabSelected == old(sheet.tabSelected)
    {
      var record := records[k];
      assert records[k..][0] == record && records[k..][1..] == records[k + 1..];
      if IsNullOrEmpty(record.enumName) {
        k := k + 1;
        continue;
      }
      var found := FindOption(options, record.enumName.value);
      if found.None? {
        k := k + 1;
        continue;
      }
      var loaded := LoadInfos(sheet, record.line, |record.texts|, options[found.value].cellInfos);
      if loaded.Err? {
        return loaded;
      }
      k := k + 1;
    }
    assert records[k..] == [];
    return Ok(());
  }

  /** `Load`: the information of the option files put back onto the text cells, or the
      exception that stopped it (the workbook is then not saved). A directory maps to its files
      in enumeration order; a sheet's directory is named by its identifier. */
  method Load(book: Workbook, data: ExcelData, directories: map<string, seq<(string, Option<OptionFile>)>>,
              extension: string) returns (r: Result<()>)
    requires book.Valid()
    modifies book.sheets
    ensures r.Ok? <==> Loaded(book.sheets, old(StatesOf(book.sheets)), data.sheets, data, directories, extension).Ok?
    ensures r.Err? ==> r.error == Loaded(book.sheets, old(StatesOf(book.sheets)), data.sheets, data, directories, extension).error
    ensures r.Ok? ==> StatesOf(book.sheets) == Loaded(book.sheets, old(StatesOf(book.sheets)), data.sheets, data, directories, extension).value
    ensures forall p :: 0 <= p < |book.sheets| ==>
      book.sheets[p].isProtected == old(book.sheets[p].isProtected) && book.sheets[p].tabSelected == old(book.sheets[p].tabSelected)
  {
    var items := data.sheets;
    var worksheets := book.sheets;
    var k := 0;
    assert items[k..] == items;
    while k < |items|
      invariant 0 <= k <= |items|
      invariant Loaded(worksheets, old(StatesOf(worksheets)), items, data, directories, extension)
        == Loaded(worksheets, StatesOf(worksheets), items[k..], data, directories, extension)
      invariant forall p :: 0 <= p < |worksheets| ==>
        worksheets[p].isProtected == old(worksheets[p].isProtected) && worksheets[p].tabSelected == old(worksheets[p].tabSelected)
    {
      var item := items[k];
      assert items[k..][0] == item && items[k..][1..] == items[k + 1..];
      var r1 := LoadSheet(book, item, data, directories, extension);
      if r1.Err? {
        return r1;
      }
      k := k + 1;
    }
    assert items[k..] == [];
    return Ok(());
  }

  /** One sheet of `Load`. */
  method LoadSheet(book: Workbook, item: ExcelSheet, data: ExcelData, directories: map<string, seq<(string, Option<OptionFile>)>>,
                   extension: string) returns (r: Result<()>)
    requires book.Valid()
    modifies book.sheets
    ensures r.Ok? <==> SheetLoaded(book.sheets, old(StatesOf(book.sheets)), item, data, directories, extension).Ok?
    ensures r.Err? ==> r.error == SheetLoaded(book.sheets, old(StatesOf(book.sheets)), item, data, directories, extension).error
    ensures r.Ok? ==> StatesOf(book.sheets) == SheetLoaded(book.sheets, old(StatesOf(book.sheets)), item, data, directories, extension).value
    ensures forall p :: 0 <= p < |book.sheets| ==>
      book.sheets[p].isProtected == old(book.sheets[p].isProtected) && book.sheets[p].tabSelected == old(book.sheets[p].tabSelected)
  {
    if IsNullOrEmpty(item.sheetName) {
      return Ok(());
    }
    var records := RecordsOf(data, item.sheetName.value);
    if records == [] {
      return Ok(());
    }
    if item.sheetName.value !in directories {
      return Err(DirectoryNotFound);
    }
    var options := Options(directories[item.sheetName.value], extension);
    if options == [] || item.displayName.None? {
      return Ok(());
    }
    var found := FindSheet(book.sheets, item.displayName.value);
    if found.None? {
      return Ok(());
    }
    var p := found.value;
    var sheet := book.sheets[p];
    ghost var before := StatesOf(book.sheets);
    forall q | 0 <= q < |book.sheets| && q != p ensures book.sheets[q] != sheet {
      assert NamesOf(book.sheets)[q] != NamesOf(book.sheets)[p];
    }
    r := LoadRecords(sheet, records, options);
    if r.Ok? {
      assert StatesOf(book.sheets) == before[p := sheet.State()];
    }
  }
}
