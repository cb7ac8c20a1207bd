/** The part of the spreadsheet library the converter touches: a worksheet is a sparse map from
    (row, column) to a value and a style, a used range, a row count, column widths and two
    flags; a workbook is an ordered collection of uniquely named worksheets. */
module Excel {
  import opened Common
  import SheetOrder

  /** A cell address, (row, column), both 1-based. */
  type Address = (int, int)

  /** What `ExcelWorksheet.GetValue` returns: nothing, a string, or another value (a number, a
      date, a boolean) with the text it renders to and whether `Convert.ChangeType` can turn it
      into a string. */
  datatype CellValue =
    | Null
    | Str(s: string)
    | Other(text: string, convertible: bool)

  /** `ExcelColor`: an ARGB hex string, or a theme index with an optional tint. */
  datatype ExcelColor = ExcelColor(rgb: NString, theme: Option<int>, tint: Option<real>)

  const NoColor: ExcelColor := ExcelColor(None, None, None)

  datatype Comment = Comment(text: string, author: string)

  /** `ExcelFillStyle`. */
  datatype FillStyle = NoFill | Solid | OtherFill(code: int)

  datatype CellStyle = CellStyle(
    comment: Option<Comment>,
    font: ExcelColor,
    fill: ExcelColor,
    pattern: FillStyle,
    wrapText: bool)

  const DefaultStyle: CellStyle := CellStyle(None, NoColor, NoColor, NoFill, false)

  /** `ExcelAddressBase`: the first and last row and column of a range. */
  datatype Range = Range(startRow: int, startColumn: int, endRow: int, endColumn: int)

  /** Width a column has when none was set; widths are whole numbers in this model. */
  const DefaultColumnWidth: int := 9

  /** Everything a worksheet holds, as one value. */
  datatype SheetState = SheetState(
    values: map<Address, CellValue>,
    styles: map<Address, CellStyle>,
    dimension: Range,
    rowCount: int,
    widths: map<int, int>)

  function ValueAt(s: SheetState, a: Address): CellValue {
    if a in s.values then s.values[a] else Null
  }

  function StyleAt(s: SheetState, a: Address): CellStyle {
    if a in s.styles then s.styles[a] else DefaultStyle
  }

  function WidthAt(s: SheetState, column: int): int {
    if column in s.widths then s.widths[column] else DefaultColumnWidth
  }

  /** `ExcelRange.Text`: what the cell displays. */
  function CellText(v: CellValue): string {
    match v
    case Null => ""
    case Str(s) => s
    case Other(text, _) => text
  }

  /** The largest row and column a worksheet can address. */
  const MaxRows: int := 1048576
  const MaxColumns: int := 16384

  predicate ValidAddress(row: int, column: int) {
    1 <= row <= MaxRows && 1 <= column <= MaxColumns
  }

  function Min(a: int, b: int): int { if a <= b then a else b }
  function Max(a: int, b: int): int { if a >= b then a else b }

  /** The used range grown to take in the cell (row, column). */
  function Extend(d: Range, row: int, column: int): (r: Range)
    ensures r.startRow <= row <= r.endRow && r.startColumn <= column <= r.endColumn
    ensures r.startRow <= d.startRow && d.endRow <= r.endRow
    ensures r.startColumn <= d.startColumn && d.endColumn <= r.endColumn
  {
    Range(Min(d.startRow, row), Min(d.startColumn, column), Max(d.endRow, row), Max(d.endColumn, column))
  }

  /** The cell value `SetValue` stores for a C# string: `null` clears the cell. */
  function ToCellValue(v: NString): CellValue {
    if v.None? then Null else Str(v.value)
  }

  /** The state after a cell receives the value `v`: any value but an empty one grows the used
      range to take in the cell. */
  function WithCell(s: SheetState, row: int, column: int, v: CellValue): (r: SheetState)
    ensures ValueAt(r, (row, column)) == v
    ensures forall a :: a != (row, column) ==> ValueAt(r, a) == ValueAt(s, a)
    ensures r.styles == s.styles && r.rowCount == s.rowCount && r.widths == s.widths
    ensures v.Null? ==> r.dimension == s.dimension
  {
    s.(values := s.values[(row, column) := v],
       dimension := if v.Null? then s.dimension else Extend(s.dimension, row, column))
  }

  /** The state after `SetValue(row, column, v)` with a C# string. */
  function WithValue(s: SheetState, row: int, column: int, v: NString): (r: SheetState)
    ensures ValueAt(r, (row, column)) == ToCellValue(v)
    ensures forall a :: a != (row, column) ==> ValueAt(r, a) == ValueAt(s, a)
    ensures r.styles == s.styles && r.rowCount == s.rowCount && r.widths == s.widths
  {
    WithCell(s, row, column, ToCellValue(v))
  }

  /** `ExcelRange.Copy` from cell (from, column) to cell (to, column): value and style. */
  function Copied(s: SheetState, from: int, to: int, column: int): (r: SheetState)
    ensures ValueAt(r, (to, column)) == ValueAt(s, (from, column))
    ensures StyleAt(r, (to, column)) == StyleAt(s, (from, column))
    ensures forall a :: a != (to, column) ==> ValueAt(r, a) == ValueAt(s, a) && StyleAt(r, a) == StyleAt(s, a)
    ensures r.rowCount == s.rowCount && r.widths == s.widths
  {
    var t := WithCell(s, to, column, ValueAt(s, (from, column)));
    t.(styles := t.styles[(to, column) := StyleAt(s, (from, column))])
  }

  /** `AutoFitColumns` on a range: every column of the range gets the width `fit` computes for it
      from the worksheet's contents; the other columns keep theirs. The font metrics behind
      `fit` are not modelled. */
  function AutoFitted(s: SheetState, range: Range, fit: (SheetState, Range, int) -> int): (r: SheetState)
    ensures forall c :: range.startColumn <= c <= range.endColumn ==> WidthAt(r, c) == fit(s, range, c)
    ensures forall c :: !(range.startColumn <= c <= range.endColumn) ==> WidthAt(r, c) == WidthAt(s, c)
    ensures r.values == s.values && r.styles == s.styles && r.dimension == s.dimension && r.rowCount == s.rowCount
  {
    s.(widths := FitColumns(s.widths, s, range, fit, range.startColumn))
  }

  /** The widths with the columns from `c` to the end of the range fitted. */
  function FitColumns(w: map<int, int>, s: SheetState, range: Range, fit: (SheetState, Range, int) -> int, c: int)
    : (r: map<int, int>)
    ensures forall k :: c <= k <= range.endColumn ==> k in r && r[k] == fit(s, range, k)
    ensures forall k :: !(c <= k <= range.endColumn) ==> (k in r <==> k in w) && (k in w ==> r[k] == w[k])
    decreases range.endColumn - c
  {
    if c > range.endColumn then w else FitColumns(w[c := fit(s, range, c)], s, range, fit, c + 1)
  }

  /** The state with the style of one cell replaced. */
  function WithStyle(s: SheetState, row: int, column: int, style: CellStyle): (r: SheetState)
    ensures StyleAt(r, (row, column)) == style
    ensures forall a :: a != (row, column) ==> StyleAt(r, a) == StyleAt(s, a)
    ensures r.values == s.values && r.dimension == s.dimension
    ensures r.rowCount == s.rowCount && r.widths == s.widths
  {
    s.(styles := s.styles[(row, column) := style])
  }

  class Worksheet {
    /** Worksheets are never renamed by the converter. */
    const name: string
    var values: map<Address, CellValue>
    var styles: map<Address, CellStyle>
    /** `Dimension`: the used range. */
    var dimension: Range
    /** `Cells.End.Row`: the number of rows the worksheet has. */
    var rowCount: int
    var widths: map<int, int>
    var isProtected: bool
    var tabSelected: bool

    function State(): SheetState
      reads this
    {
      SheetState(values, styles, dimension, rowCount, widths)
    }

    function GetValue(row: int, column: int): CellValue
      reads this
    {
      ValueAt(State(), (row, column))
    }

    function Style(row: int, column: int): CellStyle
      reads this
    {
      StyleAt(State(), (row, column))
    }

    constructor (name: string, state: SheetState, isProtected: bool, tabSelected: bool)
      ensures this.name == name && State() == state
      ensures this.isProtected == isProtected && this.tabSelected == tabSelected
    {
      this.name := name;
      values, styles, dimension, rowCount, widths := state.values, state.styles, state.dimension, state.rowCount, state.widths;
      this.isProtected, this.tabSelected := isProtected, tabSelected;
    }

    /** `Worksheets.Add(name, template)`: a copy of the template under a new name. */
    constructor Clone(name: string, template: Worksheet)
      ensures this.name == name && State() == template.State()
      ensures isProtected == template.isProtected && tabSelected == template.tabSelected
    {
      this.name := name;
      values, styles, dimension := template.values, template.styles, template.dimension;
      rowCount, widths := template.rowCount, template.widths;
      isProtected, tabSelected := template.isProtected, template.tabSelected;
    }

    /** Writing a value grows the used range to take in the cell; clearing one leaves the
        range as it was. */
    method SetValue(row: int, column: int, v: NString)
      modifies this
      ensures State() == WithValue(old(State()), row, column, v)
      ensures isProtected == old(isProtected) && tabSelected == old(tabSelected)
    {
      values := values[(row, column) := ToCellValue(v)];
      if v.Some? {
        dimension := Extend(dimension, row, column);
      }
    }

    method SetStyle(row: int, column: int, style: CellStyle)
      modifies this
      ensures State() == WithStyle(old(State()), row, column, style)
      ensures isProtected == old(isProtected) && tabSelected == old(tabSelected)
    {
      styles := styles[(row, column) := style];
    }

    /** `CloneCellFormat`: the cell (from, column) copied onto the cell (to, column). */
    method CopyCell(from: int, to: int, column: int)
      modifies this
      ensures State() == Copied(old(State()), from, to, column)
      ensures isProtected == old(isProtected) && tabSelected == old(tabSelected)
    {
      var v := ValueAt(State(), (from, column));
      var style := StyleAt(State(), (from, column));
      values := values[(to, column) := v];
      if !v.Null? {
        dimension := Extend(dimension, to, column);
      }
      styles := styles[(to, column) := style];
    }

    method AutoFitColumns(range: Range, fit: (SheetState, Range, int) -> int)
      modifies this
      ensures State() == AutoFitted(old(State()), range, fit)
      ensures isProtected == old(isProtected) && tabSelected == old(tabSelected)
    {
      widths := AutoFitted(State(), range, fit).widths;
    }

    method SetWidth(column: int, width: int)
      modifies this
      ensures State() == old(State()).(widths := old(widths)[column := width])
      ensures isProtected == old(isProtected) && tabSelected == old(tabSelected)
    {
      widths := widths[column := width];
    }

    /** `InsertRow(row, 1)` below the last row: the rows it shifts are all empty, so only the
        row count changes. */
    method AppendRow()
      modifies this
      ensures State() == old(State()).(rowCount := old(rowCount) + 1)
      ensures isProtected == old(isProtected) && tabSelected == old(tabSelected)
    {
      rowCount := rowCount + 1;
    }
  }

  function NamesOf(sheets: seq<Worksheet>): seq<string> {
    seq(|sheets|, i requires 0 <= i < |sheets| => sheets[i].name)
  }

  /** Index of the first worksheet called `name`, as `FirstOrDefault(x => x.Name == name)`
      finds it. */
  function FindSheet(sheets: seq<Worksheet>, name: string): (r: Option<nat>)
    ensures r.Some? ==> r.value < |sheets| && sheets[r.value].name == name
    ensures r.Some? ==> forall j :: 0 <= j < r.value ==> sheets[j].name != name
    ensures r.None? ==> forall j :: 0 <= j < |sheets| ==> sheets[j].name != name
  {
    if sheets == [] then None
    else if sheets[0].name == name then Some(0)
    else match FindSheet(sheets[1..], name)
      case None => None
      case Some(k) => Some(k + 1)
  }

  predicate ValidNames(names: seq<string>) {
    Distinct(names) && "" !in names
  }

  /** `ExcelWorksheets`: the worksheets of a workbook, in tab order. */
  class Workbook {
    var sheets: seq<Worksheet>

    /** Excel keeps worksheet names unique and non-empty. */
    ghost predicate Valid()
      reads this
    {
      ValidNames(NamesOf(sheets))
    }

    constructor (sheets: seq<Worksheet>)
      requires ValidNames(NamesOf(sheets))
      ensures Valid() && this.sheets == sheets
    {
      this.sheets := sheets;
    }

    method Add(sheet: Worksheet)
      requires Valid()
      requires sheet.name != "" && sheet.name !in NamesOf(sheets)
      modifies this
      ensures Valid()
      ensures sheets == old(sheets) + [sheet]
    {
      sheets := sheets + [sheet];
      assert NamesOf(sheets) == NamesOf(old(sheets)) + [sheet.name];
    }

    /** `MoveToStart(name)`: the worksheet of that name becomes the first; the others keep
        their order. */
    method MoveToStart(name: string)
      requires Valid() && name in NamesOf(sheets)
      modifies this
      ensures Valid()
      ensures NamesOf(sheets) == SheetOrder.MoveToStart(NamesOf(old(sheets)), name)
      ensures multiset(sheets) == multiset(old(sheets))
    {
      var found := FindSheet(sheets, name);
      var i := found.value;
      var moved := sheets[i];
      ghost var before := sheets;
      sheets := [moved] + sheets[..i] + sheets[i + 1..];
      assert before == before[..i] + [moved] + before[i + 1..];
      assert NamesOf(sheets) == [name] + (NamesOf(before)[..i] + NamesOf(before)[i + 1..]);
      SheetOrder.RemoveDistinct(NamesOf(before), i);
      SheetOrder.MoveToStartPermutation(NamesOf(before), name);
      assert multiset(NamesOf(sheets)) == multiset(NamesOf(before));
      assert "" !in multiset(NamesOf(sheets));
    }
  }
}
