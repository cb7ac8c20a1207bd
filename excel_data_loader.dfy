/** `ExcelDataLoader.LoadSheetData`: the edit workbook read back into sheet records. Each
    worksheet that is neither the template nor ignored and has an identifier becomes a sheet;
    each row from `RecordStartRow` with an enum name becomes a record; identifiers already
    stored are reused and new ones are drawn from a supply of fresh identifiers. */
module ExcelDataLoader {
  import opened Common
  import opened Data
  import opened Excel
  import opened ExcelUtility
  import opened Store
  import CellOption
  import Settings

  // ----- specification -----

  /** The worksheets of a workbook as (name, state) pairs, in tab order. */
  function Views(sheets: seq<Worksheet>): seq<(string, SheetState)>
    reads sheets
  {
    seq(|sheets|, k requires 0 <= k < |sheets| reads sheets => (sheets[k].name, sheets[k].State()))
  }

  /** `LoadExistSheetData`: the stored sheet of that sheet name, `null` when there is no such
      file or it does not load. */
  function LoadExistSheetData(files: map<string, Stored>, sheetName: string, extension: string): (r: Option<SheetData>)
    ensures r.Some? <==> sheetName + extension in files && files[sheetName + extension].SheetFile?
  {
    if sheetName + extension in files then LoadSheetFile(files[sheetName + extension]) else None
  }

  /** Index of the first record whose enum name is `enumName`. */
  function FirstByEnumName(records: seq<RecordData>, enumName: string): (r: Option<nat>)
    ensures r.Some? ==> r.value < |records| && records[r.value].enumName == Some(enumName)
    ensures r.Some? ==> forall k :: 0 <= k < r.value ==> records[k].enumName != Some(enumName)
    ensures r.None? ==> forall k :: 0 <= k < |records| ==> records[k].enumName != Some(enumName)
  {
    if records == [] then None
    else if records[0].enumName == Some(enumName) then Some(0)
    else match FirstByEnumName(records[1..], enumName)
      case None => None
      case Some(k) => Some(k + 1)
  }

  /** The identifier a stored record with that enum name carries (`null` when there is none). */
  function StoredGuid(exist: Option<SheetData>, enumName: string): NString {
    if exist.Some? && exist.value.records.Some? then
      match FirstByEnumName(exist.value.records.value, enumName)
      case Some(k) => exist.value.records.value[k].guid
      case None => None
    else None
  }

  /** The header cell of column `c`, naming a language. */
  function HeaderName(s: SheetState, c: int): NString {
    ConvertValue(ValueAt(s, (TextTypeStartRow, c)))
  }

  /** Number of non-empty header cells from column `c` on, stopping at the first empty one or
      at column `length`. */
  function CountFrom(s: SheetState, length: int, c: int): nat
    decreases length - c
  {
    if c >= length || IsNullOrEmpty(HeaderName(s, c)) then 0 else 1 + CountFrom(s, length, c + 1)
  }

  /** Number of language columns, for rows of `length` values. */
  function LanguageCount(s: SheetState, length: int): nat {
    CountFrom(s, length, TextStartColumn)
  }

  /** One language column of a record: the text, and the cell options when there are any. */
  function ContentOf(text: NString, option: Option<(NString, NString, NString)>): ContentData {
    ContentData(
      text,
      if option.Some? then option.value.0 else None,
      if option.Some? then option.value.1 else None,
      if option.Some? then option.value.2 else None)
  }

  /** The contents of the record of `row`: one per language column. */
  function Contents(s: SheetState, row: int, rowValues: seq<CellValue>, count: nat): seq<ContentData>
    requires TextStartColumn - 1 + count <= |rowValues|
  {
    seq(count, i requires 0 <= i < count =>
      ContentOf(ConvertValue(rowValues[TextStartColumn - 1 + i]),
                CellOption.Get(StyleAt(s, (row, TextStartColumn + i)))))
  }

  lemma {:induction false} CountFromBound(s: SheetState, length: int, c: int)
    ensures CountFrom(s, length, c) > 0 ==> c + CountFrom(s, length, c) <= length
    decreases length - c
  {
    if c < length && !IsNullOrEmpty(HeaderName(s, c)) {
      CountFromBound(s, length, c + 1);
    }
  }

  /** What row `row` contributes, and the next unused fresh identifier: `None` when its enum
      name is empty; `ArgumentOutOfRangeException` when the row has fewer than three values. */
  function RowRecord(s: SheetState, row: int, exist: Option<SheetData>, mint: nat -> string, next: nat)
    : Result<(Option<RecordData>, nat)>
  {
    var rowValues := RowValues(s, row);
    match ConvertValueAt(rowValues, EnumNameColumn - 1)
    case Err(e) => Err(e)
    case Ok(enumName) =>
      if IsNullOrEmpty(enumName) then Ok((None, next))
      else
        var stored := StoredGuid(exist, enumName.value);
        var guid := if IsNullOrEmpty(stored) then mint(next) else stored.value;
        var after := if IsNullOrEmpty(stored) then next + 1 else next;
        var description := ConvertValueAt(rowValues, DescriptionColumn - 1).value;
        var count := LanguageCount(s, |rowValues|);
        CountFromBound(s, |rowValues|, TextStartColumn);
        Ok((Some(RecordData(enumName, description, Some(guid), Some(Contents(s, row, rowValues, count)))), after))
  }

  /** The records of rows `RecordStartRow` to `last`, in ascending row order. */
  function Rows(s: SheetState, exist: Option<SheetData>, last: int, mint: nat -> string, next: nat)
    : Result<(seq<RecordData>, nat)>
    decreases last - RecordStartRow + 1
  {
    if last < RecordStartRow then Ok(([], next))
    else match Rows(s, exist, last - 1, mint, next)
      case Err(e) => Err(e)
      case Ok((records, n)) =>
        match RowRecord(s, last, exist, mint, n)
        case Err(e) => Err(e)
        case Ok((record, after)) =>
          Ok((if record.Some? then records + [record.value] else records, after))
  }

  /** Whether the worksheet is passed over: the template, an ignored name, or an empty
      identifier cell. */
  predicate Skipped(name: string, s: SheetState, settings: Settings.Settings) {
    || settings.templateSheetName == Some(name)
    || name in Settings.IgnoreSheetNames(settings)
    || IsNullOrEmpty(ConvertValue(ValueAt(s, (SheetNameRow, SheetNameColumn))))
  }

  /** What one worksheet contributes. */
  function SheetFor(name: string, s: SheetState, settings: Settings.Settings, files: map<string, Stored>,
                    mint: nat -> string, next: nat): Result<(Option<SheetData>, nat)>
  {
    if Skipped(name, s, settings) then Ok((None, next))
    else
      var sheetName := ConvertValue(ValueAt(s, (SheetNameRow, SheetNameColumn)));
      var extension := Settings.GetFileExtension(Settings.FileFormat(settings.format));
      var exist := LoadExistSheetData(files, sheetName.value, extension);
      var guid := if exist.None? then Some(mint(next)) else exist.value.guid;
      var after := if exist.None? then next + 1 else next;
      match Rows(s, exist, s.dimension.endRow, mint, after)
      case Err(e) => Err(e)
      case Ok((records, n)) => Ok((Some(SheetData(sheetName, Some(name), guid, Some(records))), n))
  }

  /** The sheets of the given worksheets, in tab order. */
  function Sheets(views: seq<(string, SheetState)>, settings: Settings.Settings, files: map<string, Stored>,
                  mint: nat -> string, next: nat): Result<(seq<SheetData>, nat)>
    decreases |views|
  {
    if views == [] then Ok(([], next))
    else match Sheets(views[..|views| - 1], settings, files, mint, next)
      case Err(e) => Err(e)
      case Ok((sheets, n)) =>
        var view := views[|views| - 1];
        match SheetFor(view.0, view.1, settings, files, mint, n)
        case Err(e) => Err(e)
        case Ok((sheet, after)) => Ok((if sheet.Some? then sheets + [sheet.value] else sheets, after))
  }

  /** A malformed row ends the fold: later rows change nothing. */
  lemma {:induction false} RowsErrorStays(s: SheetState, exist: Option<SheetData>, row: int, last: int, mint: nat -> string, next: nat)
    requires row <= last
    requires Rows(s, exist, row, mint, next).Err?
    ensures Rows(s, exist, last, mint, next) == Rows(s, exist, row, mint, next)
    decreases last - row
  {
    if row < last {
      RowsErrorStays(s, exist, row, last - 1, mint, next);
    }
  }

  /** A failing worksheet ends the fold: later worksheets change nothing. */
  lemma {:induction false} SheetsErrorStays(views: seq<(string, SheetState)>, i: nat, settings: Settings.Settings,
                                            files: map<string, Stored>, mint: nat -> string, next: nat)
    requires i <= |views|
    requires Sheets(views[..i], settings, files, mint, next).Err?
    ensures Sheets(views, settings, files, mint, next) == Sheets(views[..i], settings, files, mint, next)
    decreases |views| - i
  {
    if i < |views| {
      assert views[..|views| - 1][..i] == views[..i];
      SheetsErrorStays(views[..|views| - 1], i, settings, files, mint, next);
    } else {
      assert views[..i] == views;
    }
  }

  // ----- properties -----

  /** Every counted column is below the bound and has a non-empty header. */
  lemma {:induction false} CountFromCovers(s: SheetState, length: int, c: int, k: int)
    requires c <= k < c + CountFrom(s, length, c)
    ensures k < length && !IsNullOrEmpty(HeaderName(s, k))
    decreases k - c
  {
    assert c < length && !IsNullOrEmpty(HeaderName(s, c));
    if k > c {
      CountFromCovers(s, length, c + 1, k);
    }
  }

  /** Counting stops at the bound or at an empty header. */
  lemma {:induction false} CountFromStops(s: SheetState, length: int, c: int)
    ensures c + CountFrom(s, length, c) >= length || IsNullOrEmpty(HeaderName(s, c + CountFrom(s, length, c)))
    decreases length - c
  {
    if c < length && !IsNullOrEmpty(HeaderName(s, c)) {
      CountFromStops(s, length, c + 1);
    }
  }

  lemma {:induction false} CountFromShape(s: SheetState, length: int, c: int)
    ensures forall k :: c <= k < c + CountFrom(s, length, c) ==> k < length && !IsNullOrEmpty(HeaderName(s, k))
    ensures c + CountFrom(s, length, c) >= length || IsNullOrEmpty(HeaderName(s, c + CountFrom(s, length, c)))
  {
    forall k | c <= k < c + CountFrom(s, length, c) {
      CountFromCovers(s, length, c, k);
    }
    CountFromBound(s, length, c);
    CountFromStops(s, length, c);
  }

  /** The language columns are the non-empty header cells from `TextStartColumn` on, without a
      gap; counting stops at the first empty one or before column `length`. */
  lemma LanguageColumns(s: SheetState, length: int)
    ensures forall c :: TextStartColumn <= c < TextStartColumn + LanguageCount(s, length) ==>
      c < length && !IsNullOrEmpty(HeaderName(s, c))
    ensures TextStartColumn + LanguageCount(s, length) >= length
      || IsNullOrEmpty(HeaderName(s, TextStartColumn + LanguageCount(s, length)))
  {
    CountFromShape(s, length, TextStartColumn);
    assert LanguageCount(s, length) == CountFrom(s, length, TextStartColumn);
  }

  /** What one row yields. A row with fewer than three values throws; a row whose enum-name
      value is empty yields nothing and draws no identifier; any other row yields a record with
      that enum name, the description beside it, the stored identifier of the first stored
      record with that enum name when it is non-empty (or else the next fresh one), and one
      content per language column whose text is the row's value in that column and whose
      comment and colours are those `CellOption.Get` reports, all `null` when it reports none. */
  lemma RowRecordShape(s: SheetState, row: int, exist: Option<SheetData>, mint: nat -> string, next: nat)
    ensures RowRecord(s, row, exist, mint, next).Err? <==> Width(s.dimension) <= EnumNameColumn - 1
    ensures RowRecord(s, row, exist, mint, next).Err? ==> RowRecord(s, row, exist, mint, next).error == ArgumentOutOfRange
    ensures RowRecord(s, row, exist, mint, next).Ok? ==>
      var (record, after) := RowRecord(s, row, exist, mint, next).value;
      var first := s.dimension.startColumn;
      var enumName := ConvertValue(ValueAt(s, (row, first + EnumNameColumn - 1)));
      && (record.None? <==> IsNullOrEmpty(enumName))
      && (record.None? ==> after == next)
      && (record.Some? ==>
        var stored := StoredGuid(exist, enumName.value);
        && record.value.enumName == enumName
        && record.value.description == ConvertValue(ValueAt(s, (row, first + DescriptionColumn - 1)))
        && (!IsNullOrEmpty(stored) ==> record.value.guid == stored && after == next)
        && (IsNullOrEmpty(stored) ==> record.value.guid == Some(mint(next)) && after == next + 1)
        && record.value.contents.Some?
        && |record.value.contents.value| == LanguageCount(s, Width(s.dimension))
        && forall i :: 0 <= i < |record.value.contents.value| ==>
          var content := record.value.contents.value[i];
          var option := CellOption.Get(StyleAt(s, (row, TextStartColumn + i)));
          && content.text == ConvertValue(ValueAt(s, (row, first + TextStartColumn - 1 + i)))
          && (option.None? ==> content.comment.None? && content.fontColor.None? && content.backgroundColor.None?)
          && (option.Some? ==> (content.comment, content.fontColor, content.backgroundColor) == option.value))
  {
    var rowValues := RowValues(s, row);
    if |rowValues| > EnumNameColumn - 1 {
      var count := LanguageCount(s, |rowValues|);
      CountFromBound(s, |rowValues|, TextStartColumn);
      var contents := Contents(s, row, rowValues, count);
      var enumName := ConvertValueAt(rowValues, EnumNameColumn - 1).value;
      if !IsNullOrEmpty(enumName) {
        assert RowRecord(s, row, exist, mint, next).value.0.value.contents == Some(contents);
      }
      forall i | 0 <= i < count
        ensures contents[i].text == ConvertValue(ValueAt(s, (row, s.dimension.startColumn + TextStartColumn - 1 + i)))
        ensures contents[i] == ContentOf(contents[i].text, CellOption.Get(StyleAt(s, (row, TextStartColumn + i))))
      {
        assert rowValues[TextStartColumn - 1 + i] == ValueAt(s, (row, s.dimension.startColumn + TextStartColumn - 1 + i));
        assert contents[i] == ContentOf(ConvertValue(rowValues[TextStartColumn - 1 + i]),
                                        CellOption.Get(StyleAt(s, (row, TextStartColumn + i))));
      }
    }
  }

  /** The enum names of rows `RecordStartRow` to `last` that are non-empty, in row order: the
      reference for which rows become records. */
  function EnumNames(s: SheetState, last: int): seq<string>
    decreases last - RecordStartRow + 1
  {
    if last < RecordStartRow then []
    else
      var enumName := ConvertValue(ValueAt(s, (last, s.dimension.startColumn + EnumNameColumn - 1)));
      EnumNames(s, last - 1) + (if IsNullOrEmpty(enumName) then [] else [enumName.value])
  }

  function EnumNamesOf(records: seq<RecordData>): seq<NString> {
    seq(|records|, k requires 0 <= k < |records| => records[k].enumName)
  }

  /** The rows of a sheet: a sheet whose used range has fewer than three columns throws as soon
      as there is a record row; otherwise exactly the rows with a non-empty enum name yield
      records, in ascending row order, every record has as many contents as the sheet has
      language columns, and at most one fresh identifier is drawn per record. */
  lemma {:induction false} RowsShape(s: SheetState, exist: Option<SheetData>, last: int, mint: nat -> string, next: nat)
    ensures Rows(s, exist, last, mint, next).Err? <==>
      last >= RecordStartRow && Width(s.dimension) <= EnumNameColumn - 1
    ensures Rows(s, exist, last, mint, next).Ok? ==>
      var (records, after) := Rows(s, exist, last, mint, next).value;
      && EnumNamesOf(records) == seq(|EnumNames(s, last)|, k requires 0 <= k < |EnumNames(s, last)| => Some(EnumNames(s, last)[k]))
      && (forall k :: 0 <= k < |records| ==>
            records[k].contents.Some? && |records[k].contents.value| == LanguageCount(s, Width(s.dimension)))
      && next <= after <= next + |records|
    decreases last - RecordStartRow + 1
  {
    if last >= RecordStartRow {
      RowsShape(s, exist, last - 1, mint, next);
      var before := Rows(s, exist, last - 1, mint, next);
      if before.Ok? {
        RowRecordShape(s, last, exist, mint, before.value.1);
        var records := before.value.0;
        var step := RowRecord(s, last, exist, mint, before.value.1);
        if step.Ok? && step.value.0.Some? {
          assert EnumNamesOf(records + [step.value.0.value]) == EnumNamesOf(records) + [step.value.0.value.enumName];
        }
      }
    }
  }

  // ----- identifiers -----

  /** The identifier stored for the enum name of a record (`null` when there is none). */
  function StoredFor(exist: Option<SheetData>, record: RecordData): NString {
    if record.enumName.Some? then StoredGuid(exist, record.enumName.value) else None
  }

  /** A record that draws a fresh identifier: no non-empty one is stored for its enum name. */
  predicate FreshRecord(exist: Option<SheetData>, record: RecordData) {
    IsNullOrEmpty(StoredFor(exist, record))
  }

  /** The identifiers the records drew fresh, in record order. */
  function RecordDraws(exist: Option<SheetData>, records: seq<RecordData>): seq<NString>
    decreases |records|
  {
    if records == [] then []
    else
      var last := records[|records| - 1];
      RecordDraws(exist, records[..|records| - 1]) + (if FreshRecord(exist, last) then [last.guid] else [])
  }

  /** Every record that draws no fresh identifier carries the stored one. */
  predicate ReusesStored(exist: Option<SheetData>, records: seq<RecordData>) {
    forall k :: 0 <= k < |records| && !FreshRecord(exist, records[k]) ==> records[k].guid == StoredFor(exist, records[k])
  }

  /** The fresh identifiers `mint(from)`, ..., `mint(to - 1)`, in order. */
  function MintRange(mint: nat -> string, from: nat, to: nat): seq<NString>
    requires from <= to
  {
    seq(to - from, i requires 0 <= i < to - from => Some(mint(from + i)))
  }

  /** Records drawn with the counter moving from `next` to `after`: stored identifiers are
      reused, and the fresh ones are `mint(next)`, ..., `mint(after - 1)`, in order. */
  predicate DrawsFrom(exist: Option<SheetData>, records: seq<RecordData>, mint: nat -> string, next: nat, after: nat) {
    next <= after && ReusesStored(exist, records) && RecordDraws(exist, records) == MintRange(mint, next, after)
  }

  lemma MintRangeConcat(mint: nat -> string, a: nat, b: nat, c: nat)
    requires a <= b <= c
    ensures MintRange(mint, a, b) + MintRange(mint, b, c) == MintRange(mint, a, c)
  {
    var left, right, all := MintRange(mint, a, b), MintRange(mint, b, c), MintRange(mint, a, c);
    forall i | 0 <= i < |all| ensures (left + right)[i] == all[i] {
      if i >= b - a {
        assert (left + right)[i] == right[i - (b - a)];
      }
    }
  }

  /** With a supply that never repeats itself, no fresh identifier is drawn twice. */
  lemma MintRangeDistinct(mint: nat -> string, from: nat, to: nat)
    requires from <= to
    requires forall i: nat, j: nat :: mint(i) == mint(j) ==> i == j
    ensures forall i, j :: 0 <= i < j < to - from ==> MintRange(mint, from, to)[i] != MintRange(mint, from, to)[j]
  {
  }

  /** One more record keeps the draws in order. */
  lemma DrawsAppend(exist: Option<SheetData>, records: seq<RecordData>, record: RecordData, mint: nat -> string,
                    next: nat, n: nat, after: nat)
    requires DrawsFrom(exist, records, mint, next, n)
    requires !FreshRecord(exist, record) ==> record.guid == StoredFor(exist, record) && after == n
    requires FreshRecord(exist, record) ==> record.guid == Some(mint(n)) && after == n + 1
    ensures DrawsFrom(exist, records + [record], mint, next, after)
  {
    var all := records + [record];
    assert RecordDraws(exist, all) == MintRange(mint, next, after) by {
      assert all[..|all| - 1] == records;
      assert RecordDraws(exist, all) == RecordDraws(exist, records) + (if FreshRecord(exist, record) then [record.guid] else []);
      if FreshRecord(exist, record) {
        MintRangeConcat(mint, next, n, n + 1);
      }
    }
    assert ReusesStored(exist, all) by {
      forall k | 0 <= k < |all| && !FreshRecord(exist, all[k]) ensures all[k].guid == StoredFor(exist, all[k]) {
        if k < |records| {
          assert all[k] == records[k];
        }
      }
    }
  }

  /** The identifier of one row's record: the stored one when it is non-empty, and otherwise
      `mint(next)`, which moves the counter on by one. */
  lemma RowRecordGuid(s: SheetState, row: int, exist: Option<SheetData>, mint: nat -> string, next: nat)
    requires RowRecord(s, row, exist, mint, next).Ok?
    ensures var (record, after) := RowRecord(s, row, exist, mint, next).value;
      && (record.None? ==> after == next)
      && (record.Some? && !FreshRecord(exist, record.value) ==>
            record.value.guid == StoredFor(exist, record.value) && after == next)
      && (record.Some? && FreshRecord(exist, record.value) ==> record.value.guid == Some(mint(next)) && after == next + 1)
  {
  }

  /** One more row: the rows before it succeed, and so does its own record. */
  lemma RowsUnfold(s: SheetState, exist: Option<SheetData>, last: int, mint: nat -> string, next: nat)
    requires last >= RecordStartRow && Rows(s, exist, last, mint, next).Ok?
    ensures Rows(s, exist, last - 1, mint, next).Ok?
    ensures var (records, n) := Rows(s, exist, last - 1, mint, next).value;
      && RowRecord(s, last, exist, mint, n).Ok?
      && var (record, after) := RowRecord(s, last, exist, mint, n).value;
         Rows(s, exist, last, mint, next).value == (if record.Some? then records + [record.value] else records, after)
  {
  }

  /** The identifiers of the rows' records: each record whose enum name has a non-empty stored
      identifier (of the first stored record with that name) carries it, and the others draw
      `mint(next)`, `mint(next + 1)`, ... in row order, one each, up to `after`. */
  lemma {:induction false} RowsGuids(s: SheetState, exist: Option<SheetData>, last: int, mint: nat -> string, next: nat)
    requires Rows(s, exist, last, mint, next).Ok?
    ensures DrawsFrom(exist, Rows(s, exist, last, mint, next).value.0, mint, next, Rows(s, exist, last, mint, next).value.1)
    decreases last - RecordStartRow + 1
  {
    if last >= RecordStartRow {
      RowsUnfold(s, exist, last, mint, next);
      var before := Rows(s, exist, last - 1, mint, next);
      var records, n := before.value.0, before.value.1;
      RowsGuids(s, exist, last - 1, mint, next);
      var step := RowRecord(s, last, exist, mint, n);
      RowRecordGuid(s, last, exist, mint, n);
      var record, after := step.value.0, step.value.1;
      var all := if record.Some? then records + [record.value] else records;
      if record.Some? {
        DrawsAppend(exist, records, record.value, mint, next, n, after);
      }
      assert Rows(s, exist, last, mint, next).value == (all, after);
    }
  }

  /** The stored sheet a loaded sheet's identifiers are looked up in. */
  function ExistOf(sheet: SheetData, settings: Settings.Settings, files: map<string, Stored>): Option<SheetData> {
    if sheet.sheetName.Some? then
      LoadExistSheetData(files, sheet.sheetName.value, Settings.GetFileExtension(Settings.FileFormat(settings.format)))
    else None
  }

  function RecordsOrEmpty(sheet: SheetData): seq<RecordData> {
    if sheet.records.Some? then sheet.records.value else []
  }

  /** The identifiers a sheet drew fresh: its own when no stored sheet loads, then its records'. */
  function SheetDraws(sheet: SheetData, settings: Settings.Settings, files: map<string, Stored>): seq<NString> {
    var exist := ExistOf(sheet, settings, files);
    (if exist.None? then [sheet.guid] else []) + RecordDraws(exist, RecordsOrEmpty(sheet))
  }

  /** The identifiers the sheets drew fresh, in tab order. */
  function SheetsDraws(sheets: seq<SheetData>, settings: Settings.Settings, files: map<string, Stored>): seq<NString>
    decreases |sheets|
  {
    if sheets == [] then []
    else SheetsDraws(sheets[..|sheets| - 1], settings, files) + SheetDraws(sheets[|sheets| - 1], settings, files)
  }

  /** A sheet whose stored file loads carries the stored sheet's identifier, and its records
      that draw none carry the stored ones. */
  predicate SheetReusesStored(sheet: SheetData, settings: Settings.Settings, files: map<string, Stored>) {
    var exist := ExistOf(sheet, settings, files);
    (exist.Some? ==> sheet.guid == exist.value.guid) && ReusesStored(exist, RecordsOrEmpty(sheet))
  }

  /** The identifiers of one worksheet's sheet: the stored sheet's when its file loads, and
      otherwise `mint(next)`; then its records' as `RowsGuids` states. */
  lemma SheetForGuids(name: string, s: SheetState, settings: Settings.Settings, files: map<string, Stored>,
                      mint: nat -> string, next: nat)
    requires SheetFor(name, s, settings, files, mint, next).Ok?
    ensures var (sheet, after) := SheetFor(name, s, settings, files, mint, next).value;
      && next <= after
      && (sheet.None? ==> after == next)
      && (sheet.Some? ==> SheetReusesStored(sheet.value, settings, files)
                          && SheetDraws(sheet.value, settings, files) == MintRange(mint, next, after))
  {
    if !Skipped(name, s, settings) {
      var sheetName := ConvertValue(ValueAt(s, (SheetNameRow, SheetNameColumn)));
      var extension := Settings.GetFileExtension(Settings.FileFormat(settings.format));
      var exist := LoadExistSheetData(files, sheetName.value, extension);
      var start := if exist.None? then next + 1 else next;
      RowsGuids(s, exist, s.dimension.endRow, mint, start);
      var rows := Rows(s, exist, s.dimension.endRow, mint, start).value;
      var sheet := SheetData(sheetName, Some(name), if exist.None? then Some(mint(next)) else exist.value.guid, Some(rows.0));
      assert SheetFor(name, s, settings, files, mint, next).value == (Some(sheet), rows.1);
      assert ExistOf(sheet, settings, files) == exist;
      MintRangeConcat(mint, next, start, rows.1);
    }
  }

  /** The identifiers of all sheets and records: stored ones are reused, and all others are
      drawn fresh, one each, as `mint(next)`, ..., `mint(after - 1)` in tab and row order, the
      sheet's own before its records'. */
  lemma {:induction false} SheetsGuids(views: seq<(string, SheetState)>, settings: Settings.Settings,
                                       files: map<string, Stored>, mint: nat -> string, next: nat)
    requires Sheets(views, settings, files, mint, next).Ok?
    ensures next <= Sheets(views, settings, files, mint, next).value.1
    ensures forall k :: 0 <= k < |Sheets(views, settings, files, mint, next).value.0| ==>
      SheetReusesStored(Sheets(views, settings, files, mint, next).value.0[k], settings, files)
    ensures SheetsDraws(Sheets(views, settings, files, mint, next).value.0, settings, files)
      == MintRange(mint, next, Sheets(views, settings, files, mint, next).value.1)
    decreases |views|
  {
    if views != [] {
      var init := views[..|views| - 1];
      var before := Sheets(init, settings, files, mint, next);
      assert before.Ok?;
      SheetsGuids(init, settings, files, mint, next);
      var sheets, n := before.value.0, before.value.1;
      var view := views[|views| - 1];
      var step := SheetFor(view.0, view.1, settings, files, mint, n);
      assert step.Ok?;
      SheetForGuids(view.0, view.1, settings, files, mint, n);
      var sheet, after := step.value.0, step.value.1;
      assert Sheets(views, settings, files, mint, next) == Ok((if sheet.Some? then sheets + [sheet.value] else sheets, after));
      if sheet.Some? {
        var all := sheets + [sheet.value];
        assert all[..|all| - 1] == sheets;
        assert SheetsDraws(all, settings, files) == SheetsDraws(sheets, settings, files) + SheetDraws(sheet.value, settings, files);
        MintRangeConcat(mint, next, n, after);
      }
    }
  }

  /** The worksheets that yield sheets, as (display name, sheet name): every worksheet that is
      neither the template (matched case-sensitively) nor ignored and has an identifier, in tab
      order. */
  function Selected(views: seq<(string, SheetState)>, settings: Settings.Settings): seq<(NString, NString)>
    decreases |views|
  {
    if views == [] then []
    else
      var view := views[|views| - 1];
      Selected(views[..|views| - 1], settings)
        + if Skipped(view.0, view.1, settings) then []
          else [(Some(view.0), ConvertValue(ValueAt(view.1, (SheetNameRow, SheetNameColumn))))]
  }

  function NamesOfSheets(sheets: seq<SheetData>): seq<(NString, NString)> {
    seq(|sheets|, k requires 0 <= k < |sheets| => (sheets[k].displayName, sheets[k].sheetName))
  }

  /** Which worksheets become sheets, and under which names: exactly the selected ones, in tab
      order, each with its identifier as sheet name and its worksheet name as display name,
      with records. `SheetsGuids` states their identifiers. */
  lemma {:induction false} SheetsSelection(views: seq<(string, SheetState)>, settings: Settings.Settings,
                                           files: map<string, Stored>, mint: nat -> string, next: nat)
    requires Sheets(views, settings, files, mint, next).Ok?
    ensures NamesOfSheets(Sheets(views, settings, files, mint, next).value.0) == Selected(views, settings)
    ensures forall k :: 0 <= k < |Sheets(views, settings, files, mint, next).value.0| ==>
      Sheets(views, settings, files, mint, next).value.0[k].records.Some?
    decreases |views|
  {
    if views != [] {
      var init := views[..|views| - 1];
      var before := Sheets(init, settings, files, mint, next);
      assert before.Ok?;
      SheetsSelection(init, settings, files, mint, next);
      var sheets, n := before.value.0, before.value.1;
      var view := views[|views| - 1];
      var step := SheetFor(view.0, view.1, settings, files, mint, n);
      assert step.Ok?;
      var sheet := step.value.0;
      assert Sheets(views, settings, files, mint, next).value.0 == if sheet.Some? then sheets + [sheet.value] else sheets;
      assert Selected(views, settings) == Selected(init, settings)
        + if Skipped(view.0, view.1, settings) then []
          else [(Some(view.0), ConvertValue(ValueAt(view.1, (SheetNameRow, SheetNameColumn))))];
      if sheet.Some? {
        assert sheet.value.displayName == Some(view.0)
          && sheet.value.sheetName == ConvertValue(ValueAt(view.1, (SheetNameRow, SheetNameColumn)))
          && sheet.value.records.Some?;
        assert NamesOfSheets(sheets + [sheet.value]) == NamesOfSheets(sheets) + [(sheet.value.displayName, sheet.value.sheetName)];
      }
    }
  }

  // ----- the loader -----

  /** `LoadSheetNames`: `null` when the edit workbook does not exist; otherwise the names of its
      worksheets in tab order. */
  method LoadSheetNames(excel: Option<Workbook>) returns (r: Option<seq<string>>)
    ensures excel.None? <==> r.None?
    ensures excel.Some? ==> r == Some(NamesOf(excel.value.sheets))
  {
    if excel.None? {
      return None;
    }
    var worksheets := excel.value.sheets;
    var sheetNames: seq<string> := [];
    var i := 0;
    while i < |worksheets|
      invariant 0 <= i <= |worksheets|
      invariant sheetNames == NamesOf(worksheets[..i])
    {
      assert worksheets[..i + 1] == worksheets[..i] + [worksheets[i]];
      sheetNames := sheetNames + [worksheets[i].name];
      i := i + 1;
    }
    assert worksheets[..i] == worksheets;
    return Some(sheetNames);
  }

  /** The number of language columns, counted along the header row as long as the header cells
      are non-empty and the column is below `length`. */
  method CountLanguageColumns(worksheet: Worksheet, length: int) returns (textEndColumn: int)
    ensures textEndColumn == TextStartColumn + LanguageCount(worksheet.State(), length)
  {
    textEndColumn := TextStartColumn;
    var c := TextStartColumn;
    while c < length
      invariant TextStartColumn <= c && textEndColumn == c
      invariant LanguageCount(worksheet.State(), length) == (c - TextStartColumn) + CountFrom(worksheet.State(), length, c)
      decreases length - c
    {
      var textTypeName := ConvertValue(worksheet.GetValue(TextTypeStartRow, c));
      if IsNullOrEmpty(textTypeName) {
        break;
      }
      textEndColumn := textEndColumn + 1;
      c := c + 1;
    }
  }

  /** The contents of one record, one per column from `TextStartColumn` below `textEndColumn`. */
  method ReadContents(worksheet: Worksheet, row: int, rowValues: seq<CellValue>, textEndColumn: int)
    returns (contents: seq<ContentData>)
    requires TextStartColumn <= textEndColumn <= |rowValues| + 1
    ensures contents == Contents(worksheet.State(), row, rowValues, textEndColumn - TextStartColumn)
  {
    contents := [];
    var c := TextStartColumn;
    while c < textEndColumn
      invariant TextStartColumn <= c <= textEndColumn
      invariant contents == Contents(worksheet.State(), row, rowValues, c - TextStartColumn)
    {
      var text := ConvertValueAt(rowValues, c - 1).value;
      var option := CellOption.Get(worksheet.Style(row, c));
      contents := contents + [ContentOf(text, option)];
      c := c + 1;
    }
  }

  /** The record of one row. */
  method LoadRow(worksheet: Worksheet, row: int, exist: Option<SheetData>, mint: nat -> string, next: nat)
    returns (r: Result<(Option<RecordData>, nat)>)
    ensures r == RowRecord(worksheet.State(), row, exist, mint, next)
  {
    var rowValues := GetRowValues(worksheet, row);
    var enumName := ConvertValueAt(rowValues, EnumNameColumn - 1);
    if enumName.Err? {
      return Err(enumName.error);
    }
    if IsNullOrEmpty(enumName.value) {
      return Ok((None, next));
    }
    var recordGuid: NString := Some("");
    var after := next;
    if exist.Some? && exist.value.records.Some? {
      var k := FirstByEnumName(exist.value.records.value, enumName.value.value);
      if k.Some? {
        recordGuid := exist.value.records.value[k.value].guid;
      }
    }
    if IsNullOrEmpty(recordGuid) {
      recordGuid := Some(mint(after));
      after := after + 1;
    }
    var description := ConvertValueAt(rowValues, DescriptionColumn - 1).value;
    var textEndColumn := CountLanguageColumns(worksheet, |rowValues|);
    CountFromBound(worksheet.State(), |rowValues|, TextStartColumn);
    var contents := ReadContents(worksheet, row, rowValues, textEndColumn);
    return Ok((Some(RecordData(enumName.value, description, recordGuid, Some(contents))), after));
  }

  /** The sheet of one worksheet. */
  method LoadWorksheet(worksheet: Worksheet, settings: Settings.Settings, dir: ContentDirectory,
                       mint: nat -> string, next: nat) returns (r: Result<(Option<SheetData>, nat)>)
    ensures r == SheetFor(worksheet.name, worksheet.State(), settings, dir.files, mint, next)
  {
    if settings.templateSheetName == Some(worksheet.name) {
      return Ok((None, next));
    }
    if worksheet.name in Settings.IgnoreSheetNames(settings) {
      return Ok((None, next));
    }
    var sheetEnumName := ConvertValue(worksheet.GetValue(SheetNameRow, SheetNameColumn));
    if IsNullOrEmpty(sheetEnumName) {
      return Ok((None, next));
    }
    var extension := Settings.GetFileExtension(Settings.FileFormat(settings.format));
    var exist := LoadExistSheetData(dir.files, sheetEnumName.value, extension);
    var counter := next;
    var sheetGuid;
    if exist.None? {
      sheetGuid := Some(mint(counter));
      counter := counter + 1;
    } else {
      sheetGuid := exist.value.guid;
    }
    ghost var start := counter;
    var records: seq<RecordData> := [];
    var row := RecordStartRow;
    while row <= worksheet.dimension.endRow
      invariant RecordStartRow <= row <= Max(worksheet.dimension.endRow + 1, RecordStartRow)
      invariant Rows(worksheet.State(), exist, row - 1, mint, start) == Ok((records, counter))
      decreases worksheet.dimension.endRow - row
    {
      var record := LoadRow(worksheet, row, exist, mint, counter);
      if record.Err? {
        RowsErrorStays(worksheet.State(), exist, row, worksheet.dimension.endRow, mint, start);
        return Err(record.error);
      }
      if record.value.0.Some? {
        records := records + [record.value.0.value];
      }
      counter := record.value.1;
      row := row + 1;
    }
    if worksheet.dimension.endRow < RecordStartRow {
      assert row == RecordStartRow;
    }
    return Ok((Some(SheetData(sheetEnumName, Some(worksheet.name), sheetGuid, Some(records))), counter));
  }

  /** `LoadSheetData`: `null` when the edit workbook does not exist; otherwise the sheets of its
      worksheets in tab order, or the exception the first malformed row throws. Fresh
      identifiers are `mint(next)`, `mint(next + 1)`, ...; `after` is the first one not drawn. */
  method LoadSheetData(excel: Option<Workbook>, settings: Settings.Settings, dir: ContentDirectory,
                       mint: nat -> string, next: nat) returns (r: Result<Option<seq<SheetData>>>, after: nat)
    ensures excel.None? ==> r == Ok(None) && after == next
    ensures excel.Some? ==>
      match Sheets(Views(excel.value.sheets), settings, dir.files, mint, next)
      case Err(e) => r == Err(e)
      case Ok((sheets, n)) => r == Ok(Some(sheets)) && after == n
    ensures r.Ok? && r.value.Some? ==>
      && next <= after
      && (forall k :: 0 <= k < |r.value.value| ==> SheetReusesStored(r.value.value[k], settings, dir.files))
      && SheetsDraws(r.value.value, settings, dir.files) == MintRange(mint, next, after)
  {
    if excel.None? {
      return Ok(None), next;
    }
    var worksheets := excel.value.sheets;
    ghost var views := Views(worksheets);
    var sheets: seq<SheetData> := [];
    after := next;
    var i := 0;
    while i < |worksheets|
      invariant 0 <= i <= |worksheets|
      invariant Sheets(views[..i], settings, dir.files, mint, next) == Ok((sheets, after))
    {
      ghost var prefix := views[..i + 1];
      assert prefix[..i] == views[..i];
      assert prefix[i] == (worksheets[i].name, worksheets[i].State());
      var sheet := LoadWorksheet(worksheets[i], settings, dir, mint, after);
      if sheet.Err? {
        SheetsErrorStays(views, i + 1, settings, dir.files, mint, next);
        return Err(sheet.error), after;
      }
      if sheet.value.0.Some? {
        sheets := sheets + [sheet.value.0.value];
      }
      after := sheet.value.1;
      i := i + 1;
    }
    assert views[..i] == views;
    assert next <= after && (forall k :: 0 <= k < |sheets| ==> SheetReusesStored(sheets[k], settings, dir.files))
        && SheetsDraws(sheets, settings, dir.files) == MintRange(mint, next, after) by {
      SheetsGuids(views, settings, dir.files, mint, next);
    }
    return Ok(Some(sheets)), after;
  }
}
