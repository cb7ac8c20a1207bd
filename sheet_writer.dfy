/** The per-sheet part of `EditExcelBuilder.Build`: one cloned worksheet filled with a sheet's
    records. The identifier goes to row 1, column 2; record `i` goes to row
    `RecordStartRow + i` with its enum name in column 3, its description in column 2 and its
    texts from column 4 on; the cell options of a record are applied through the cell-info
    setter; finally the columns are fitted, never below the width they had before. */
module SheetWriter {
  import opened Common
  import opened Data
  import opened Excel
  import StringExtensions
  import CellDataUtility
  import ExcelUtility

  /** A record as the builder reads it: the texts of its language columns and, optionally, the
      cell options of some of its cells. */
  datatype EditRecord = EditRecord(
    enumName: NString,
    description: NString,
    texts: seq<NString>,
    cells: Option<seq<Option<CellDataUtility.CellData>>>)

  /** A sheet as the builder reads it. */
  datatype EditSheet = EditSheet(
    sheetName: NString,
    displayName: NString,
    records: Option<seq<EditRecord>>)

  /** `ExcelCellUtility.Set(worksheet, row, column, cellData)`: from the old style of the cell
      (row, column) and the cell record, the cell's new style or the exception the setter
      throws. */
  type CellSetter = (CellStyle, int, int, CellDataUtility.CellData) -> Result<CellStyle>

  /** The autofit width of a column, from the worksheet and the fitted range. */
  type Fitter = (SheetState, Range, int) -> int

  // ----- column widths before the records -----

  /** The `columnsWidth` dictionary: the width of each column of the used range. */
  function BaseWidths(s: SheetState, d: Range): map<int, int> {
    map c | d.startColumn <= c <= d.endColumn :: WidthAt(s, c)
  }

  /** `GetValueOrDefault`: 0 for a column outside the dictionary. */
  function BaseWidth(base: map<int, int>, c: int): int {
    if c in base then base[c] else 0
  }

  // ----- cells for the records -----

  /** `CloneCellFormat` for the columns from `column` up to, not including, `last`. */
  function CopyColumns(s: SheetState, row: int, column: int, last: int): SheetState
    decreases last - column
  {
    if column >= last then s else CopyColumns(Copied(s, RecordStartRow, row, column), row, column + 1, last)
  }

  /** Row `row` made ready: a row inserted when the worksheet is shorter, and the cells of
      columns 1 to `d.endColumn - 1` copied from the first record row. */
  function PrepareRow(s: SheetState, d: Range, row: int): SheetState {
    var grown := if s.rowCount < row then s.(rowCount := s.rowCount + 1) else s;
    CopyColumns(grown, row, 1, d.endColumn)
  }

  function PrepareRows(s: SheetState, d: Range, row: int, count: nat): SheetState
    decreases count
  {
    if count == 0 then s else PrepareRows(PrepareRow(s, d, row), d, row + 1, count - 1)
  }

  // ----- values -----

  /** The wrap rule: a text is wrapped when its normalised form contains a line feed. */
  function WrapText(text: string): bool {
    var fixedText := StringExtensions.FixLineEnd(Some(text), StringExtensions.DefaultNewLine);
    fixedText.Some? && Contains(fixedText.value, "\n")
  }

  /** One text cell: an empty text leaves the cell alone; any other text sets the wrap flag
      and then the value. */
  function TextWritten(s: SheetState, row: int, column: int, text: NString): SheetState {
    if IsNullOrEmpty(text) then s
    else
      var wrapped := WithStyle(s, row, column, StyleAt(s, (row, column)).(wrapText := WrapText(text.value)));
      WithValue(wrapped, row, column, text)
  }

  /** The texts of a record, the first in column `column`. */
  function TextsWritten(s: SheetState, row: int, column: int, texts: seq<NString>): SheetState
    decreases |texts|
  {
    if texts == [] then s else TextsWritten(TextWritten(s, row, column, texts[0]), row, column + 1, texts[1..])
  }

  /** The cell (row, column) restyled by the setter, or the setter's exception. */
  function Restyled(s: SheetState, row: int, column: int, data: CellDataUtility.CellData, apply: CellSetter): Result<SheetState> {
    match apply(StyleAt(s, (row, column)), row, column, data)
    case Err(e) => Err(e)
    case Ok(style) => Ok(WithStyle(s, row, column, style))
  }

  /** One cell record: skipped when it is `null` or its address lacks a part; otherwise the row
      and then the column are parsed with `Convert.ToInt32`, either of which can throw, and the
      setter restyles the addressed cell. */
  function CellWritten(s: SheetState, cell: Option<CellDataUtility.CellData>, apply: CellSetter): Result<SheetState> {
    if cell.None? then Ok(s)
    else match CellDataUtility.AddressParts(cell.value.address)
      case None => Ok(s)
      case Some((rowText, columnText)) =>
        match ParseInt32(rowText)
        case Err(e) => Err(e)
        case Ok(row) =>
          match ParseInt32(columnText)
          case Err(e) => Err(e)
          case Ok(column) => Restyled(s, row, column, cell.value, apply)
  }

  function CellsWritten(s: SheetState, cells: seq<Option<CellDataUtility.CellData>>, apply: CellSetter): Result<SheetState>
    decreases |cells|
  {
    if cells == [] then Ok(s)
    else match CellWritten(s, cells[0], apply)
      case Err(e) => Err(e)
      case Ok(t) => CellsWritten(t, cells[1..], apply)
  }

  /** One record in row `row`. */
  function RecordWritten(s: SheetState, row: int, record: EditRecord, apply: CellSetter): Result<SheetState> {
    var named := WithValue(WithValue(s, row, EnumNameColumn, record.enumName), row, DescriptionColumn, record.description);
    var texts := TextsWritten(named, row, TextStartColumn, record.texts);
    if record.cells.None? then Ok(texts) else CellsWritten(texts, record.cells.value, apply)
  }

  /** The records, the first in row `row`. */
  function RecordsWritten(s: SheetState, row: int, records: seq<EditRecord>, apply: CellSetter): Result<SheetState>
    decreases |records|
  {
    if records == [] then Ok(s)
    else match RecordWritten(s, row, records[0], apply)
      case Err(e) => Err(e)
      case Ok(t) => RecordsWritten(t, row + 1, records[1..], apply)
  }

  // ----- widths after the records -----

  /** The width floor for the columns from `column` to `last`: a column narrower than its base
      width is widened to it. */
  function FloorWidths(s: SheetState, base: map<int, int>, column: int, last: int): SheetState
    decreases last - column + 1
  {
    if column > last then s
    else
      var floored := if WidthAt(s, column) < BaseWidth(base, column)
                     then s.(widths := s.widths[column := BaseWidth(base, column)]) else s;
      FloorWidths(floored, base, column + 1, last)
  }

  /** Everything the builder does to the worksheet of a sheet with records, from the state the
      clone starts in; an error is the exception that ends the build. */
  function SheetWritten(s: SheetState, sheet: EditSheet, fit: Fitter, apply: CellSetter): Result<SheetState>
    requires sheet.records.Some?
  {
    var d := s.dimension;
    var records := sheet.records.value;
    var named := WithValue(s, SheetNameRow, SheetNameColumn, sheet.sheetName);
    var base := BaseWidths(named, d);
    var prepared := PrepareRows(named, d, RecordStartRow, |records|);
    match RecordsWritten(prepared, RecordStartRow, records, apply)
    case Err(e) => Err(e)
    case Ok(t) => Ok(FloorWidths(AutoFitted(t, Range(1, 1, d.endRow, d.endColumn), fit), base, 1, d.endColumn))
  }

  // ----- properties -----

  /** The wrap rule: a non-empty text is wrapped exactly when it contains a carriage return or
      a line feed. */
  lemma WrapRule(text: string)
    requires text != ""
    ensures WrapText(text) <==> '\r' in text || '\n' in text
  {
    StringExtensions.FixLineEndDefault(Some(text));
    ContainsChar(StringExtensions.FixLineEnd(Some(text), StringExtensions.DefaultNewLine).value, '\n');
  }

  /** The text cells of one record: a non-empty text `j` is the value of column `column + j`,
      whose style gains the wrap flag; an empty text leaves its cell as it was, and so are all
      cells outside those columns of the row. */
  lemma TextsShape(s: SheetState, row: int, column: int, texts: seq<NString>)
    ensures var t := TextsWritten(s, row, column, texts);
      && (forall j :: 0 <= j < |texts| && !IsNullOrEmpty(texts[j]) ==>
            && ValueAt(t, (row, column + j)) == Str(texts[j].value)
            && StyleAt(t, (row, column + j)) == StyleAt(s, (row, column + j)).(wrapText := WrapText(texts[j].value)))
      && (forall j :: 0 <= j < |texts| && IsNullOrEmpty(texts[j]) ==>
            ValueAt(t, (row, column + j)) == ValueAt(s, (row, column + j))
            && StyleAt(t, (row, column + j)) == StyleAt(s, (row, column + j)))
      && (forall a: Address :: !(a.0 == row && column <= a.1 < column + |texts|) ==>
            ValueAt(t, a) == ValueAt(s, a) && StyleAt(t, a) == StyleAt(s, a))
      && t.rowCount == s.rowCount && t.widths == s.widths
  {
    forall j | 0 <= j < |texts| {
      TextAt(s, row, column, texts, j);
    }
    TextsOutside(s, row, column, texts);
  }

  /** The text cell `j` of a record. */
  lemma {:induction false} TextAt(s: SheetState, row: int, column: int, texts: seq<NString>, j: nat)
    requires j < |texts|
    ensures var t := TextsWritten(s, row, column, texts);
      && (!IsNullOrEmpty(texts[j]) ==>
            && ValueAt(t, (row, column + j)) == Str(texts[j].value)
            && StyleAt(t, (row, column + j)) == StyleAt(s, (row, column + j)).(wrapText := WrapText(texts[j].value)))
      && (IsNullOrEmpty(texts[j]) ==>
            ValueAt(t, (row, column + j)) == ValueAt(s, (row, column + j))
            && StyleAt(t, (row, column + j)) == StyleAt(s, (row, column + j)))
    decreases |texts|
  {
    var first := TextWritten(s, row, column, texts[0]);
    if j == 0 {
      TextsOutside(first, row, column + 1, texts[1..]);
    } else {
      TextAt(first, row, column + 1, texts[1..], j - 1);
      assert texts[1..][j - 1] == texts[j];
      assert column + 1 + (j - 1) == column + j;
    }
  }

  /** The texts of a record leave every other cell and the sheet's extent as they were. */
  lemma {:induction false} TextsOutside(s: SheetState, row: int, column: int, texts: seq<NString>)
    ensures var t := TextsWritten(s, row, column, texts);
      && (forall a: Address :: !(a.0 == row && column <= a.1 < column + |texts|) ==>
            ValueAt(t, a) == ValueAt(s, a) && StyleAt(t, a) == StyleAt(s, a))
      && t.rowCount == s.rowCount && t.widths == s.widths
    decreases |texts|
  {
    if texts != [] {
      TextsOutside(TextWritten(s, row, column, texts[0]), row, column + 1, texts[1..]);
    }
  }

  /** Cell records restyle cells and change nothing else. */
  lemma {:induction false} CellsKeepValues(s: SheetState, cells: seq<Option<CellDataUtility.CellData>>, apply: CellSetter)
    requires CellsWritten(s, cells, apply).Ok?
    ensures var t := CellsWritten(s, cells, apply).value;
      t.values == s.values && t.dimension == s.dimension && t.rowCount == s.rowCount && t.widths == s.widths
    decreases |cells|
  {
    if cells != [] {
      CellsKeepValues(CellWritten(s, cells[0], apply).value, cells[1..], apply);
    }
  }

  /** One record: its enum name in column 3, its description in column 2 and its non-empty
      texts from column 4 on; nothing outside its row changes value. */
  lemma RecordShape(s: SheetState, row: int, record: EditRecord, apply: CellSetter)
    requires RecordWritten(s, row, record, apply).Ok?
    ensures var t := RecordWritten(s, row, record, apply).value;
      && ValueAt(t, (row, EnumNameColumn)) == ToCellValue(record.enumName)
      && ValueAt(t, (row, DescriptionColumn)) == ToCellValue(record.description)
      && (forall j :: 0 <= j < |record.texts| && !IsNullOrEmpty(record.texts[j]) ==>
            ValueAt(t, (row, TextStartColumn + j)) == Str(record.texts[j].value))
      && (forall a: Address :: a.0 != row ==> ValueAt(t, a) == ValueAt(s, a))
      && t.rowCount == s.rowCount && t.widths == s.widths
  {
    var named := WithValue(WithValue(s, row, EnumNameColumn, record.enumName), row, DescriptionColumn, record.description);
    TextsShape(named, row, TextStartColumn, record.texts);
    var texts := TextsWritten(named, row, TextStartColumn, record.texts);
    if record.cells.Some? {
      CellsKeepValues(texts, record.cells.value, apply);
    }
  }

  /** Records leave the rows above them and the column widths as they were. */
  lemma {:induction false} RecordsKeepAbove(s: SheetState, row: int, records: seq<EditRecord>, apply: CellSetter)
    requires RecordsWritten(s, row, records, apply).Ok?
    ensures var t := RecordsWritten(s, row, records, apply).value;
      (forall a: Address :: a.0 < row ==> ValueAt(t, a) == ValueAt(s, a)) && t.rowCount == s.rowCount && t.widths == s.widths
    decreases |records|
  {
    if records != [] {
      RecordShape(s, row, records[0], apply);
      RecordsKeepAbove(RecordWritten(s, row, records[0], apply).value, row + 1, records[1..], apply);
    }
  }

  /** All records: record `i` in row `row + i`, with its enum name and description. */
  lemma RecordsFields(s: SheetState, row: int, records: seq<EditRecord>, apply: CellSetter)
    requires RecordsWritten(s, row, records, apply).Ok?
    ensures var t := RecordsWritten(s, row, records, apply).value;
      forall i :: 0 <= i < |records| ==>
        && ValueAt(t, (row + i, EnumNameColumn)) == ToCellValue(records[i].enumName)
        && ValueAt(t, (row + i, DescriptionColumn)) == ToCellValue(records[i].description)
  {
    forall i | 0 <= i < |records| {
      RecordFieldsAt(s, row, records, apply, i);
    }
  }

  /** Record `i` keeps its enum name and description in row `row + i`. */
  lemma {:induction false} RecordFieldsAt(s: SheetState, row: int, records: seq<EditRecord>, apply: CellSetter, i: nat)
    requires RecordsWritten(s, row, records, apply).Ok? && i < |records|
    ensures var t := RecordsWritten(s, row, records, apply).value;
      && ValueAt(t, (row + i, EnumNameColumn)) == ToCellValue(records[i].enumName)
      && ValueAt(t, (row + i, DescriptionColumn)) == ToCellValue(records[i].description)
    decreases i
  {
    assert RecordWritten(s, row, records[0], apply).Ok?;
    var first := RecordWritten(s, row, records[0], apply).value;
    var t := RecordsWritten(s, row, records, apply).value;
    assert t == RecordsWritten(first, row + 1, records[1..], apply).value;
    if i == 0 {
      assert ValueAt(t, (row, EnumNameColumn)) == ValueAt(first, (row, EnumNameColumn))
          && ValueAt(t, (row, DescriptionColumn)) == ValueAt(first, (row, DescriptionColumn)) by {
        RecordsKeepAbove(first, row + 1, records[1..], apply);
      }
      RecordShape(s, row, records[0], apply);
    } else {
      RecordFieldsAt(first, row + 1, records[1..], apply, i - 1);
      assert records[1..][i - 1] == records[i];
      assert row + 1 + (i - 1) == row + i;
    }
  }

  /** All records: the non-empty text `j` of record `i` in row `row + i`, column `4 + j`. */
  lemma RecordsTexts(s: SheetState, row: int, records: seq<EditRecord>, apply: CellSetter)
    requires RecordsWritten(s, row, records, apply).Ok?
    ensures var t := RecordsWritten(s, row, records, apply).value;
      forall i, j :: 0 <= i < |records| && 0 <= j < |records[i].texts| && !IsNullOrEmpty(records[i].texts[j]) ==>
        ValueAt(t, (row + i, TextStartColumn + j)) == Str(records[i].texts[j].value)
  {
    forall i, j | 0 <= i < |records| && 0 <= j < |records[i].texts| && !IsNullOrEmpty(records[i].texts[j]) {
      RecordTextAt(s, row, records, apply, i, j);
    }
  }

  /** The non-empty text `j` of record `i` stays in row `row + i`, column `4 + j`. */
  lemma {:induction false} RecordTextAt(s: SheetState, row: int, records: seq<EditRecord>, apply: CellSetter, i: nat, j: nat)
    requires RecordsWritten(s, row, records, apply).Ok? && i < |records|
    requires j < |records[i].texts| && !IsNullOrEmpty(records[i].texts[j])
    ensures ValueAt(RecordsWritten(s, row, records, apply).value, (row + i, TextStartColumn + j))
      == Str(records[i].texts[j].value)
    decreases i
  {
    assert RecordWritten(s, row, records[0], apply).Ok?;
    var first := RecordWritten(s, row, records[0], apply).value;
    var t := RecordsWritten(s, row, records, apply).value;
    assert t == RecordsWritten(first, row + 1, records[1..], apply).value;
    if i == 0 {
      assert ValueAt(t, (row, TextStartColumn + j)) == ValueAt(first, (row, TextStartColumn + j)) by {
        RecordsKeepAbove(first, row + 1, records[1..], apply);
      }
      RecordShape(s, row, records[0], apply);
    } else {
      RecordTextAt(first, row + 1, records[1..], apply, i - 1, j);
      assert records[1..][i - 1] == records[i];
      assert row + 1 + (i - 1) == row + i;
    }
  }

  lemma {:induction false} CopyColumnsShape(s: SheetState, row: int, column: int, last: int)
    ensures var t := CopyColumns(s, row, column, last);
      (forall a: Address :: a.0 != row ==> ValueAt(t, a) == ValueAt(s, a)) && t.widths == s.widths
    decreases last - column
  {
    if column < last {
      CopyColumnsShape(Copied(s, RecordStartRow, row, column), row, column + 1, last);
    }
  }

  /** Making the record rows ready touches no row above them and no width. */
  lemma {:induction false} PrepareRowsShape(s: SheetState, d: Range, row: int, count: nat)
    ensures var t := PrepareRows(s, d, row, count);
      (forall a: Address :: a.0 < row ==> ValueAt(t, a) == ValueAt(s, a)) && t.widths == s.widths
    decreases count
  {
    if count > 0 {
      var grown := if s.rowCount < row then s.(rowCount := s.rowCount + 1) else s;
      CopyColumnsShape(grown, row, 1, d.endColumn);
      var first := PrepareRow(s, d, row);
      assert first == CopyColumns(grown, row, 1, d.endColumn);
      PrepareRowsShape(first, d, row + 1, count - 1);
      var t := PrepareRows(s, d, row, count);
      assert t == PrepareRows(first, d, row + 1, count - 1);
      forall a: Address | a.0 < row ensures ValueAt(t, a) == ValueAt(s, a) {
        assert ValueAt(t, a) == ValueAt(first, a);
        assert ValueAt(first, a) == ValueAt(grown, a);
      }
    }
  }

  /** The floor: each column from `column` to `last` ends at least as wide as its base, and the
      wider of the two; nothing else changes. */
  lemma {:induction false} FloorShape(s: SheetState, base: map<int, int>, column: int, last: int)
    ensures var t := FloorWidths(s, base, column, last);
      && (forall c :: column <= c <= last ==> WidthAt(t, c) == Max(WidthAt(s, c), BaseWidth(base, c)))
      && (forall c :: !(column <= c <= last) ==> WidthAt(t, c) == WidthAt(s, c))
      && t.values == s.values && t.styles == s.styles && t.dimension == s.dimension
    decreases last - column + 1
  {
    if column <= last {
      var floored := if WidthAt(s, column) < BaseWidth(base, column)
                     then s.(widths := s.widths[column := BaseWidth(base, column)]) else s;
      FloorShape(floored, base, column + 1, last);
    }
  }

  /** Where a written sheet's fields end up: the identifier in row 1, column 2; record `i` in
      row `RecordStartRow + i`, with its enum name in column 3, its description in column 2 and
      its non-empty texts from column 4 on. No column of the used range ends narrower than it
      was, and columns outside the fitted range keep their width. */
  lemma SheetShape(s: SheetState, sheet: EditSheet, fit: Fitter, apply: CellSetter)
    requires sheet.records.Some? && SheetWritten(s, sheet, fit, apply).Ok?
    ensures var t := SheetWritten(s, sheet, fit, apply).value;
      var records := sheet.records.value;
      && ValueAt(t, (SheetNameRow, SheetNameColumn)) == ToCellValue(sheet.sheetName)
      && (forall i :: 0 <= i < |records| ==>
            && ValueAt(t, (RecordStartRow + i, EnumNameColumn)) == ToCellValue(records[i].enumName)
            && ValueAt(t, (RecordStartRow + i, DescriptionColumn)) == ToCellValue(records[i].description))
      && (forall i, j :: 0 <= i < |records| && 0 <= j < |records[i].texts| && !IsNullOrEmpty(records[i].texts[j]) ==>
            ValueAt(t, (RecordStartRow + i, TextStartColumn + j)) == Str(records[i].texts[j].value))
      && (forall c :: s.dimension.startColumn <= c <= s.dimension.endColumn ==> WidthAt(t, c) >= WidthAt(s, c))
      && (forall c :: !(1 <= c <= s.dimension.endColumn) ==> WidthAt(t, c) == WidthAt(s, c))
  {
    var d := s.dimension;
    var records := sheet.records.value;
    var named := WithValue(s, SheetNameRow, SheetNameColumn, sheet.sheetName);
    var base := BaseWidths(named, d);
    var prepared := PrepareRows(named, d, RecordStartRow, |records|);
    var written := RecordsWritten(prepared, RecordStartRow, records, apply).value;
    var fitted := AutoFitted(written, Range(1, 1, d.endRow, d.endColumn), fit);
    var t := SheetWritten(s, sheet, fit, apply).value;
    assert t == FloorWidths(fitted, base, 1, d.endColumn);
    assert t.values == written.values by {
      FloorShape(fitted, base, 1, d.endColumn);
    }
    assert ValueAt(t, (SheetNameRow, SheetNameColumn)) == ToCellValue(sheet.sheetName) by {
      PrepareRowsShape(named, d, RecordStartRow, |records|);
      RecordsKeepAbove(prepared, RecordStartRow, records, apply);
    }
    RecordsFields(prepared, RecordStartRow, records, apply);
    RecordsTexts(prepared, RecordStartRow, records, apply);
    assert written.widths == named.widths by {
      PrepareRowsShape(named, d, RecordStartRow, |records|);
      RecordsKeepAbove(prepared, RecordStartRow, records, apply);
    }
    FloorShape(fitted, base, 1, d.endColumn);
    forall c | d.startColumn <= c <= d.endColumn ensures WidthAt(t, c) >= WidthAt(s, c) {
      assert BaseWidth(base, c) == WidthAt(s, c);
    }
  }

  /** What the loader reads back from a written sheet whose used range starts in column 1: the
      identifier, and each record's enum name, description and non-empty texts. */
  lemma LoaderReadsWrittenFields(s: SheetState, sheet: EditSheet, fit: Fitter, apply: CellSetter)
    requires sheet.records.Some? && SheetWritten(s, sheet, fit, apply).Ok?
    requires SheetWritten(s, sheet, fit, apply).value.dimension.startColumn == 1
    ensures var t := SheetWritten(s, sheet, fit, apply).value;
      var records := sheet.records.value;
      var first := t.dimension.startColumn;
      && ExcelUtility.ConvertValue(ValueAt(t, (SheetNameRow, SheetNameColumn))) == sheet.sheetName
      && (forall i :: 0 <= i < |records| ==>
            && ExcelUtility.ConvertValue(ValueAt(t, (RecordStartRow + i, first + EnumNameColumn - 1))) == records[i].enumName
            && ExcelUtility.ConvertValue(ValueAt(t, (RecordStartRow + i, first + DescriptionColumn - 1))) == records[i].description)
      && (forall i, j :: 0 <= i < |records| && 0 <= j < |records[i].texts| && !IsNullOrEmpty(records[i].texts[j]) ==>
            ExcelUtility.ConvertValue(ValueAt(t, (RecordStartRow + i, first + TextStartColumn - 1 + j))) == records[i].texts[j])
  {
    SheetShape(s, sheet, fit, apply);
  }

  /** An address written by `CellDataUtility.Get` is parsed back to its own cell. */
  lemma CellAddressRoundTrip(s: SheetState, row: int, column: int, data: CellDataUtility.CellData, apply: CellSetter)
    requires IsInt32(row) && IsInt32(column)
    requires data.address == CellDataUtility.AddressOf(row, column)
    ensures CellWritten(s, Some(data), apply) == Restyled(s, row, column, data, apply)
  {
    CellDataUtility.AddressPartsOf(row, column);
    IntToStringRoundTrip(row);
    IntToStringRoundTrip(column);
  }

  /** What one cell record does: nothing when it is `null` or its address lacks a part; a part
      that is not an integer text throws `FormatException`, the row part first; an integer
      outside 32 bits throws `OverflowException`; otherwise the setter decides. */
  lemma CellWrittenOutcome(s: SheetState, cell: Option<CellDataUtility.CellData>, apply: CellSetter)
    ensures cell.None? || CellDataUtility.AddressParts(cell.value.address).None? ==> CellWritten(s, cell, apply) == Ok(s)
    ensures cell.Some? && CellDataUtility.AddressParts(cell.value.address).Some? ==>
      var (rowText, columnText) := CellDataUtility.AddressParts(cell.value.address).value;
      && (!IntegerText(rowText) ==> CellWritten(s, cell, apply) == Err(Format))
      && (ParseInt32(rowText) == Err(Overflow) ==> CellWritten(s, cell, apply) == Err(Overflow))
      && (ParseInt32(rowText).Ok? && !IntegerText(columnText) ==> CellWritten(s, cell, apply) == Err(Format))
      && (ParseInt32(rowText).Ok? && ParseInt32(columnText) == Err(Overflow) ==> CellWritten(s, cell, apply) == Err(Overflow))
      && (ParseInt32(rowText).Ok? && ParseInt32(columnText).Ok? ==>
            CellWritten(s, cell, apply) == Restyled(s, ParseInt32(rowText).value, ParseInt32(columnText).value, cell.value, apply))
  {
  }

  /** The records from `i` on: record `i` first, then the rest one row lower. */
  lemma RecordsUnfold(s: SheetState, row: int, records: seq<EditRecord>, i: nat, apply: CellSetter)
    requires i < |records|
    ensures RecordsWritten(s, row, records[i..], apply) ==
      match RecordWritten(s, row, records[i], apply)
      case Err(e) => Err(e)
      case Ok(t) => RecordsWritten(t, row + 1, records[i + 1..], apply)
  {
    assert records[i..][0] == records[i];
    assert records[i..][1..] == records[i + 1..];
  }

  // ----- the methods -----

  /** Lines 124-131: the width of each column of the used range. */
  method ColumnWidths(sheet: Worksheet, d: Range) returns (columnsWidth: map<int, int>)
    ensures columnsWidth == BaseWidths(sheet.State(), d)
  {
    columnsWidth := map[];
    var c := d.startColumn;
    while c <= d.endColumn
      invariant d.startColumn <= c && (c <= d.endColumn + 1 || c == d.startColumn)
      invariant columnsWidth == map k | d.startColumn <= k < c :: WidthAt(sheet.State(), k)
      decreases d.endColumn - c
    {
      columnsWidth := columnsWidth[c := WidthAt(sheet.State(), c)];
      c := c + 1;
    }
  }

  /** One more column of a record row copied. */
  lemma CopyColumnsStep(goal: SheetState, s: SheetState, t: SheetState, row: int, next: int, last: int)
    requires next <= last && t == Copied(s, RecordStartRow, row, next - 1)
    requires goal == CopyColumns(s, row, next - 1, last)
    ensures goal == CopyColumns(t, row, next, last)
  {
  }

  /** Lines 139-149: one record row made ready. */
  method PrepareRecordRow(sheet: Worksheet, d: Range, recordRow: int)
    modifies sheet
    ensures sheet.State() == PrepareRow(old(sheet.State()), d, recordRow)
    ensures sheet.isProtected == old(sheet.isProtected) && sheet.tabSelected == old(sheet.tabSelected)
  {
    if sheet.rowCount < recordRow {
      sheet.AppendRow();
    }
    CopyRecordColumns(sheet, recordRow, d.endColumn);
  }

  /** Lines 143-148: the cells of columns 1 to `last - 1` copied from the first record row. */
  method CopyRecordColumns(sheet: Worksheet, recordRow: int, last: int)
    modifies sheet
    ensures sheet.State() == CopyColumns(old(sheet.State()), recordRow, 1, last)
    ensures sheet.isProtected == old(sheet.isProtected) && sheet.tabSelected == old(sheet.tabSelected)
  {
    ghost var goal := CopyColumns(sheet.State(), recordRow, 1, last);
    var column := 1;
    while column < last
      invariant 1 <= column
      invariant goal == CopyColumns(sheet.State(), recordRow, column, last)
      invariant sheet.isProtected == old(sheet.isProtected) && sheet.tabSelected == old(sheet.tabSelected)
      decreases last - column
    {
      ghost var before := sheet.State();
      sheet.CopyCell(RecordStartRow, recordRow, column);
      column := column + 1;
      CopyColumnsStep(goal, before, sheet.State(), recordRow, column, last);
    }
  }

  /** One more record row made ready. */
  lemma PrepareRowsStep(s: SheetState, d: Range, row: int, count: nat)
    requires count > 0
    ensures PrepareRows(s, d, row, count) == PrepareRows(PrepareRow(s, d, row), d, row + 1, count - 1)
  {
  }

  /** Lines 135-150: the rows for `count` records made ready. */
  method PrepareRecordRows(sheet: Worksheet, d: Range, count: nat)
    modifies sheet
    ensures sheet.State() == PrepareRows(old(sheet.State()), d, RecordStartRow, count)
    ensures sheet.isProtected == old(sheet.isProtected) && sheet.tabSelected == old(sheet.tabSelected)
  {
    ghost var goal := PrepareRows(sheet.State(), d, RecordStartRow, count);
    var i := 0;
    while i < count
      invariant 0 <= i <= count
      invariant goal == PrepareRows(sheet.State(), d, RecordStartRow + i, count - i)
      invariant sheet.isProtected == old(sheet.isProtected) && sheet.tabSelected == old(sheet.tabSelected)
    {
      PrepareRowsStep(sheet.State(), d, RecordStartRow + i, count - i);
      PrepareRecordRow(sheet, d, RecordStartRow + i);
      i := i + 1;
    }
  }

  /** Lines 167-178: the texts of one record. */
  method WriteTexts(sheet: Worksheet, row: int, texts: seq<NString>)
    modifies sheet
    ensures sheet.State() == TextsWritten(old(sheet.State()), row, TextStartColumn, texts)
    ensures sheet.isProtected == old(sheet.isProtected) && sheet.tabSelected == old(sheet.tabSelected)
  {
    var j := 0;
    while j < |texts|
      invariant 0 <= j <= |texts|
      invariant TextsWritten(old(sheet.State()), row, TextStartColumn, texts)
        == TextsWritten(sheet.State(), row, TextStartColumn + j, texts[j..])
      invariant sheet.isProtected == old(sheet.isProtected) && sheet.tabSelected == old(sheet.tabSelected)
    {
      var text := texts[j];
      assert texts[j..] == [text] + texts[j + 1..];
      if !IsNullOrEmpty(text) {
        var style := sheet.Style(row, TextStartColumn + j);
        sheet.SetStyle(row, TextStartColumn + j, style.(wrapText := WrapText(text.value)));
        sheet.SetValue(row, TextStartColumn + j, text);
      }
      j := j + 1;
    }
    assert texts[j..] == [];
  }

  /** Lines 183-198: the cell records of one record. */
  method WriteCells(sheet: Worksheet, cells: seq<Option<CellDataUtility.CellData>>, apply: CellSetter)
    returns (r: Result<()>)
    modifies sheet
    ensures r.Ok? <==> CellsWritten(old(sheet.State()), cells, apply).Ok?
    ensures r.Ok? ==> sheet.State() == CellsWritten(old(sheet.State()), cells, apply).value
    ensures r.Err? ==> r.error == CellsWritten(old(sheet.State()), cells, apply).error
    ensures sheet.isProtected == old(sheet.isProtected) && sheet.tabSelected == old(sheet.tabSelected)
  {
    var k := 0;
    while k < |cells|
      invariant 0 <= k <= |cells|
      invariant CellsWritten(old(sheet.State()), cells, apply) == CellsWritten(sheet.State(), cells[k..], apply)
      invariant sheet.isProtected == old(sheet.isProtected) && sheet.tabSelected == old(sheet.tabSelected)
    {
      var cell := cells[k];
      assert cells[k..] == [cell] + cells[k + 1..];
      if cell.Some? {
        var parts := CellDataUtility.AddressParts(cell.value.address);
        if parts.Some? {
          var rowNumber := ParseInt32(parts.value.0);
          if rowNumber.Err? {
            return Err(rowNumber.error);
          }
          var columnNumber := ParseInt32(parts.value.1);
          if columnNumber.Err? {
            return Err(columnNumber.error);
          }
          var style := sheet.Style(rowNumber.value, columnNumber.value);
          var restyled := apply(style, rowNumber.value, columnNumber.value, cell.value);
          if restyled.Err? {
            return Err(restyled.error);
          }
          sheet.SetStyle(rowNumber.value, columnNumber.value, restyled.value);
        }
      }
      k := k + 1;
    }
    assert cells[k..] == [];
    r := Ok(());
  }

  /** Lines 156-199: one record. */
  method WriteRecord(sheet: Worksheet, row: int, record: EditRecord, apply: CellSetter) returns (r: Result<()>)
    modifies sheet
    ensures r.Ok? <==> RecordWritten(old(sheet.State()), row, record, apply).Ok?
    ensures r.Ok? ==> sheet.State() == RecordWritten(old(sheet.State()), row, record, apply).value
    ensures r.Err? ==> r.error == RecordWritten(old(sheet.State()), row, record, apply).error
    ensures sheet.isProtected == old(sheet.isProtected) && sheet.tabSelected == old(sheet.tabSelected)
  {
    sheet.SetValue(row, EnumNameColumn, record.enumName);
    sheet.SetValue(row, DescriptionColumn, record.description);
    WriteTexts(sheet, row, record.texts);
    if record.cells.Some? {
      r := WriteCells(sheet, record.cells.value, apply);
    } else {
      r := Ok(());
    }
  }

  /** Lines 154-200: all records. */
  method WriteRecords(sheet: Worksheet, records: seq<EditRecord>, apply: CellSetter) returns (r: Result<()>)
    modifies sheet
    ensures r.Ok? <==> RecordsWritten(old(sheet.State()), RecordStartRow, records, apply).Ok?
    ensures r.Ok? ==> sheet.State() == RecordsWritten(old(sheet.State()), RecordStartRow, records, apply).value
    ensures r.Err? ==> r.error == RecordsWritten(old(sheet.State()), RecordStartRow, records, apply).error
    ensures sheet.isProtected == old(sheet.isProtected) && sheet.tabSelected == old(sheet.tabSelected)
  {
    ghost var goal := RecordsWritten(sheet.State(), RecordStartRow, records, apply);
    var i := 0;
    while i < |records|
      invariant 0 <= i <= |records|
      invariant goal == RecordsWritten(sheet.State(), RecordStartRow + i, records[i..], apply)
      invariant sheet.isProtected == old(sheet.isProtected) && sheet.tabSelected == old(sheet.tabSelected)
    {
      ghost var before := sheet.State();
      RecordsUnfold(before, RecordStartRow + i, records, i, apply);
      r := WriteRecord(sheet, RecordStartRow + i, records[i], apply);
      if r.Err? {
        assert goal == Err(r.error);
        return;
      }
      assert goal == RecordsWritten(sheet.State(), RecordStartRow + i + 1, records[i + 1..], apply);
      i := i + 1;
    }
    assert records[i..] == [];
    r := Ok(());
  }

  /** Lines 208-217: the width floor over columns 1 to `last`. */
  method FloorColumns(sheet: Worksheet, columnsWidth: map<int, int>, last: int)
    modifies sheet
    ensures sheet.State() == FloorWidths(old(sheet.State()), columnsWidth, 1, last)
    ensures sheet.isProtected == old(sheet.isProtected) && sheet.tabSelected == old(sheet.tabSelected)
  {
    var c := 1;
    while c <= last
      invariant 1 <= c
      invariant FloorWidths(old(sheet.State()), columnsWidth, 1, last) == FloorWidths(sheet.State(), columnsWidth, c, last)
      invariant sheet.isProtected == old(sheet.isProtected) && sheet.tabSelected == old(sheet.tabSelected)
      decreases last - c + 1
    {
      var baseWidth := BaseWidth(columnsWidth, c);
      var currentWidth := WidthAt(sheet.State(), c);
      if currentWidth < baseWidth {
        sheet.SetWidth(c, baseWidth);
      }
      c := c + 1;
    }
  }

  /** Lines 114-217 of `Build` for one worksheet whose sheet has records. */
  method WriteSheet(sheet: Worksheet, data: EditSheet, fit: Fitter, apply: CellSetter) returns (r: Result<()>)
    requires data.records.Some?
    modifies sheet
    ensures r.Ok? <==> SheetWritten(old(sheet.State()), data, fit, apply).Ok?
    ensures r.Ok? ==> sheet.State() == SheetWritten(old(sheet.State()), data, fit, apply).value
    ensures r.Err? ==> r.error == SheetWritten(old(sheet.State()), data, fit, apply).error
    ensures sheet.isProtected == old(sheet.isProtected) && sheet.tabSelected == old(sheet.tabSelected)
  {
    var d := sheet.dimension;
    var records := data.records.value;
    sheet.SetValue(SheetNameRow, SheetNameColumn, data.sheetName);
    var columnsWidth := ColumnWidths(sheet, d);
    PrepareRecordRows(sheet, d, |records|);
    r := WriteRecords(sheet, records, apply);
    if r.Err? {
      return;
    }
    sheet.AutoFitColumns(Range(1, 1, d.endRow, d.endColumn), fit);
    FloorColumns(sheet, columnsWidth, d.endColumn);
  }
}
