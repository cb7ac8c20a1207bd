/** Full cell metadata as a record: the address as "row,column", the comment without the
    author's prefix, theme-aware font and background colours and the fill pattern; and the
    inverse that writes such a record back onto a worksheet. */
module CellDataUtility {
  import opened Common
  import opened Excel
  import CellOption

  /** `CellData.Color`: ARGB digits, or a theme index with an optional tint. */
  datatype Color = Color(rgb: NString, theme: Option<int>, tint: Option<real>)

  /** `CellData`. */
  datatype CellData = CellData(
    address: string,
    comment: NString,
    fontColor: Option<Color>,
    backgroundColor: Option<Color>,
    patternType: FillStyle)

  /** `IsEmptyColor`: no colour, or one with neither ARGB digits nor a theme nor a tint. */
  predicate IsEmptyColor(color: Option<Color>) {
    color.None? || (IsNullOrEmpty(color.value.rgb) && color.value.theme.None? && color.value.tint.None?)
  }

  /** `IsEmptyCellData`: no record, or one with no comment text and neither colour; the
      pattern type does not count. */
  predicate IsEmptyCellData(data: Option<CellData>) {
    data.None? || (IsNullOrEmpty(data.value.comment) && data.value.fontColor.None? && data.value.backgroundColor.None?)
  }

  /** `GetColor`: empty ARGB digits become `null`, the tint is kept only with a theme, and a
      colour with neither digits nor a theme is no colour at all. */
  function GetColor(color: ExcelColor): (r: Option<Color>)
    ensures r.None? <==> IsNullOrEmpty(color.rgb) && color.theme.None?
    ensures r.Some? ==> r.value.rgb == (if IsNullOrEmpty(color.rgb) then None else color.rgb)
    ensures r.Some? ==> r.value.theme == color.theme
    ensures r.Some? ==> r.value.tint == (if color.theme.Some? then color.tint else None)
    ensures !IsEmptyColor(r) <==> r.Some?
  {
    var c := Color(if IsNullOrEmpty(color.rgb) then None else color.rgb,
                   color.theme,
                   if color.theme.Some? then color.tint else None);
    if IsEmptyColor(Some(c)) then None else Some(c)
  }

  /** The comment text `Get` records: an "author:" prefix is dropped when the author is
      non-empty, then leading and trailing line feeds are trimmed. */
  function CommentOf(c: Comment): (r: string)
    ensures r != [] ==> r[0] != '\n' && r[|r| - 1] != '\n'
    ensures c.author == "" || !StartsWith(c.text, c.author + ":") ==> r == Trim(c.text, {'\n'})
    ensures c.author != "" && StartsWith(c.text, c.author + ":") ==>
      r == Trim(c.text[|c.author| + 1..], {'\n'})
  {
    var prefix := c.author + ":";
    var text := if c.author != "" && StartsWith(c.text, prefix) then c.text[|prefix|..] else c.text;
    TrimShape(text, {'\n'});
    Trim(text, {'\n'})
  }

  /** The address text `Get` stores: "{row},{column}". */
  function AddressOf(row: int, column: int): string {
    IntToString(row) + "," + IntToString(column)
  }

  /** `CellDataUtility.Get(worksheet, column, row)`: the cell indexer throws
      `ArgumentException` for an address outside the sheet; otherwise the record of the cell
      (row, column), or `null` when it has no comment text and neither colour. */
  function Get(s: SheetState, column: int, row: int): (r: Result<Option<CellData>>)
    ensures r.Err? <==> !ValidAddress(row, column)
    ensures r.Err? ==> r.error == Argument
    ensures r.Ok? ==> (r.value.None? <==>
      var style := StyleAt(s, (row, column));
      (style.comment.None? || CommentOf(style.comment.value) == "")
      && IsNullOrEmpty(style.font.rgb) && style.font.theme.None?
      && IsNullOrEmpty(style.fill.rgb) && style.fill.theme.None?)
    ensures r.Ok? && r.value.Some? ==>
      var d := r.value.value;
      var style := StyleAt(s, (row, column));
      && d.address == AddressOf(row, column)
      && d.comment == (if style.comment.Some? then Some(CommentOf(style.comment.value)) else None)
      && d.patternType == style.pattern
      && d.fontColor == GetColor(style.font)
      && d.backgroundColor == GetColor(style.fill)
  {
    if !ValidAddress(row, column) then Err(Argument)
    else
      var style := StyleAt(s, (row, column));
      var data := CellData(
        AddressOf(row, column),
        if style.comment.Some? then Some(CommentOf(style.comment.value)) else None,
        GetColor(style.font),
        GetColor(style.fill),
        style.pattern);
      if IsEmptyCellData(Some(data)) then Ok(None) else Ok(Some(data))
  }

  /** The row and column texts of an address: `Split(',')` and `ElementAtOrDefault` of pieces 0
      and 1, or `None` (the entry is skipped) when either is missing or empty. */
  function AddressParts(address: string): Option<(string, string)> {
    var parts := Split(address, ',');
    var row := parts[0];
    var column := if |parts| > 1 then parts[1] else "";
    if row == "" || column == "" then None else Some((row, column))
  }

  /** An address `Get` writes splits back into the row and the column. */
  lemma AddressPartsOf(row: int, column: int)
    ensures AddressParts(AddressOf(row, column)) == Some((IntToString(row), IntToString(column)))
  {
    IntToStringNoComma(row);
    IntToStringNoComma(column);
    SplitAtSeparator(IntToString(row), IntToString(column), ',');
    SplitWithoutSeparator(IntToString(column), ',');
    NatToStringDigits(if row < 0 then -row else row);
    NatToStringDigits(if column < 0 then -column else column);
  }

  /** `SetColor`: an empty colour changes nothing; a theme colour sets the theme and, when
      given, the tint; any other colour sets the ARGB digits. */
  function SetColor(target: ExcelColor, color: Option<Color>): (r: ExcelColor)
    ensures IsEmptyColor(color) ==> r == target
    ensures !IsEmptyColor(color) && color.value.theme.Some? ==>
      r.theme == color.value.theme && r.tint == (if color.value.tint.Some? then color.value.tint else target.tint)
    ensures !IsEmptyColor(color) && color.value.theme.None? ==>
      r.theme.None? && r.rgb == Some(OrEmpty(color.value.rgb))
  {
    if IsEmptyColor(color) then target
    else if color.value.theme.Some? then
      ExcelColor(None, color.value.theme, if color.value.tint.Some? then color.value.tint else target.tint)
    else CellOption.HtmlColor("#" + OrEmpty(color.value.rgb))
  }

  /** The style `Set` leaves on the addressed cell: a comment by "REF" when the record has
      comment text, the record's pattern type always, and both colours through `SetColor`. */
  function StyleAfterSet(style: CellStyle, data: CellData): (r: CellStyle)
    ensures r.comment == if IsNullOrEmpty(data.comment) then style.comment
                         else Some(Comment(data.comment.value, CellOption.CommentAuthor))
    ensures r.pattern == data.patternType
    ensures r.font == SetColor(style.font, data.fontColor)
    ensures r.fill == SetColor(style.fill, data.backgroundColor)
    ensures r.wrapText == style.wrapText
  {
    style.(
      comment := if IsNullOrEmpty(data.comment) then style.comment
                 else Some(Comment(data.comment.value, CellOption.CommentAuthor)),
      pattern := data.patternType,
      font := SetColor(style.font, data.fontColor),
      fill := SetColor(style.fill, data.backgroundColor))
  }

  /** `CellDataUtility.Set` as a function of the worksheet: nothing for `null` or an address with
      a missing or empty part; `Convert.ToInt32` of the column and then of the row, either of
      which can throw; the cell indexer rejects an address outside the sheet, and `AddComment`
      a cell that already has a comment. The first failing step gives the exception, and
      nothing changes then; otherwise exactly the addressed cell is restyled. */
  function Apply(s: SheetState, data: Option<CellData>): (r: Result<SheetState>)
    ensures data.None? || AddressParts(data.value.address).None? ==> r == Ok(s)
    ensures data.Some? && AddressParts(data.value.address).Some? ==>
      var (rowText, columnText) := AddressParts(data.value.address).value;
      var column := ParseInt32(columnText);
      var row := ParseInt32(rowText);
      && (column.Err? ==> r == Err(column.error))
      && (column.Ok? && row.Err? ==> r == Err(row.error))
      && (column.Ok? && row.Ok? && !ValidAddress(row.value, column.value) ==> r == Err(Argument))
      && (column.Ok? && row.Ok? && ValidAddress(row.value, column.value) ==>
           var style := StyleAt(s, (row.value, column.value));
           r == if CellOption.CommentClash(style, data.value.comment) then Err(InvalidOperation)
                else Ok(WithStyle(s, row.value, column.value, StyleAfterSet(style, data.value))))
  {
    if data.None? then Ok(s)
    else match AddressParts(data.value.address)
      case None => Ok(s)
      case Some((rowText, columnText)) =>
        match ParseInt32(columnText)
        case Err(e) => Err(e)
        case Ok(column) =>
          match ParseInt32(rowText)
          case Err(e) => Err(e)
          case Ok(row) =>
            if !ValidAddress(row, column) then Err(Argument)
            else if CellOption.CommentClash(StyleAt(s, (row, column)), data.value.comment) then Err(InvalidOperation)
            else Ok(WithStyle(s, row, column, StyleAfterSet(StyleAt(s, (row, column)), data.value)))
  }

  /** `CellDataUtility.Set(worksheet, cellData)`. */
  method Set(sheet: Worksheet, data: Option<CellData>) returns (r: Result<()>)
    modifies sheet
    ensures r.Ok? <==> Apply(old(sheet.State()), data).Ok?
    ensures r.Ok? ==> sheet.State() == Apply(old(sheet.State()), data).value
    ensures r.Err? ==> r.error == Apply(old(sheet.State()), data).error && sheet.State() == old(sheet.State())
    ensures sheet.isProtected == old(sheet.isProtected) && sheet.tabSelected == old(sheet.tabSelected)
  {
    if data.None? { return Ok(()); }
    var parts := AddressParts(data.value.address);
    if parts.None? { return Ok(()); }
    var c := ParseInt32(parts.value.1);
    if c.Err? { return Err(c.error); }
    var row := ParseInt32(parts.value.0);
    if row.Err? { return Err(row.error); }
    if !ValidAddress(row.value, c.value) { return Err(Argument); }
    var style := sheet.Style(row.value, c.value);
    if CellOption.CommentClash(style, data.value.comment) { return Err(InvalidOperation); }
    sheet.SetStyle(row.value, c.value, StyleAfterSet(style, data.value));
    return Ok(());
  }

  /** A colour `SetColor` can reproduce: not both ARGB digits and a theme. */
  predicate SingleColor(color: Option<Color>) {
    color.None? || color.value.rgb.None? || color.value.theme.None?
  }

  lemma SetColorRoundTrip(color: ExcelColor)
    requires SingleColor(GetColor(color))
    ensures GetColor(SetColor(NoColor, GetColor(color))) == GetColor(color)
  {
    var c := GetColor(color);
    if c.Some? && c.value.theme.None? {
      assert "#" + c.value.rgb.value == ['#'] + c.value.rgb.value;
      assert ("#" + c.value.rgb.value)[1..] == c.value.rgb.value;
    }
  }

  /** Reading a cell and writing the record onto a cell of the default appearance reproduces the
      record: the address parses back to the same cell and the comment, colours and pattern
      read back the same. Comment text that is empty or starts with "REF:" and colours carrying
      both ARGB digits and a theme are the exceptions. */
  lemma SetAfterGet(s: SheetState, t: SheetState, row: int, column: int, data: CellData)
    requires Get(s, column, row) == Ok(Some(data))
    requires StyleAt(t, (row, column)) == DefaultStyle
    requires data.comment != Some("")
    requires data.comment.Some? ==> !StartsWith(data.comment.value, CellOption.CommentAuthor + ":")
    requires SingleColor(data.fontColor) && SingleColor(data.backgroundColor)
    ensures Apply(t, Some(data)).Ok?
    ensures Get(Apply(t, Some(data)).value, column, row) == Ok(Some(data))
  {
    var style := StyleAt(s, (row, column));
    AddressPartsOf(row, column);
    IntToStringRoundTrip(row);
    IntToStringRoundTrip(column);
    var after := StyleAfterSet(DefaultStyle, data);
    assert Apply(t, Some(data)) == Ok(WithStyle(t, row, column, after));
    SetColorRoundTrip(style.font);
    SetColorRoundTrip(style.fill);
    if data.comment.Some? {
      TrimIdempotent(if style.comment.value.author != "" && StartsWith(style.comment.value.text, style.comment.value.author + ":")
                     then style.comment.value.text[|style.comment.value.author| + 1..] else style.comment.value.text, {'\n'});
      assert CommentOf(after.comment.value) == data.comment.value;
    }
  }
}
