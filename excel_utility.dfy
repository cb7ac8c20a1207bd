/** Reading cells: conversion of a cell value to a string, with and without a bounds check, and
    the values and texts of one row of the used range. */
module ExcelUtility {
  import opened Common
  import opened Excel

  /** `ConvertValue<string>(object)`: a string is returned as it is, a value `Convert.ChangeType`
      can turn into a string gives its text, and anything else (a failed cast, or no value at
      all) gives `null`. */
  function ConvertValue(v: CellValue): (r: NString)
    ensures v.Str? ==> r == Some(v.s)
    ensures v.Other? ==> (r.Some? <==> v.convertible) && (r.Some? ==> r.value == v.text)
    ensures v.Null? ==> r.None?
  {
    match v
    case Null => None
    case Str(s) => Some(s)
    case Other(text, convertible) => if convertible then Some(text) else None
  }

  /** `ConvertValue<string>(object[], int)`: `ArgumentOutOfRangeException` for an index outside
      the array, otherwise the conversion of that element. */
  function ConvertValueAt(values: seq<CellValue>, index: int): (r: Result<NString>)
    ensures r.Err? <==> index < 0 || |values| <= index
    ensures r.Err? ==> r.error == ArgumentOutOfRange
    ensures r.Ok? ==> r.value == ConvertValue(values[index])
  {
    if index < 0 || |values| <= index then Err(ArgumentOutOfRange)
    else Ok(ConvertValue(values[index]))
  }

  /** Number of columns of a range: `End.Column - Start.Column + 1`, none when the range is
      inverted. */
  function Width(d: Range): nat {
    if d.startColumn <= d.endColumn then d.endColumn - d.startColumn + 1 else 0
  }

  /** The values `GetRowValues` collects: element `i` is the cell in column `Start.Column + i`. */
  function RowValues(s: SheetState, row: int): seq<CellValue> {
    seq(Width(s.dimension), i requires 0 <= i < Width(s.dimension) =>
      ValueAt(s, (row, s.dimension.startColumn + i)))
  }

  /** The texts `GetRowValueTexts` collects. */
  function RowTexts(s: SheetState, row: int): seq<string> {
    seq(Width(s.dimension), i requires 0 <= i < Width(s.dimension) =>
      CellText(ValueAt(s, (row, s.dimension.startColumn + i))))
  }

  /** `GetRowValues`: one value per column of the used range, left to right. */
  method GetRowValues(sheet: Worksheet, row: int) returns (values: seq<CellValue>)
    ensures |values| == Width(sheet.dimension)
    ensures forall i :: 0 <= i < |values| ==> values[i] == sheet.GetValue(row, sheet.dimension.startColumn + i)
    ensures values == RowValues(sheet.State(), row)
  {
    var address := sheet.dimension;
    values := [];
    var c := address.startColumn;
    while c <= address.endColumn
      invariant address.startColumn <= c
      invariant c <= address.startColumn + Width(address)
      invariant |values| == c - address.startColumn
      invariant forall i :: 0 <= i < |values| ==> values[i] == sheet.GetValue(row, address.startColumn + i)
    {
      values := values + [sheet.GetValue(row, c)];
      c := c + 1;
    }
  }

  /** `GetRowValueTexts`: the texts of the same cells, in the same order as `GetRowValues`. */
  method GetRowValueTexts(sheet: Worksheet, row: int) returns (texts: seq<string>)
    ensures |texts| == |RowValues(sheet.State(), row)|
    ensures forall i :: 0 <= i < |texts| ==> texts[i] == CellText(RowValues(sheet.State(), row)[i])
    ensures texts == RowTexts(sheet.State(), row)
  {
    var address := sheet.dimension;
    texts := [];
    var c := address.startColumn;
    while c <= address.endColumn
      invariant address.startColumn <= c
      invariant c <= address.startColumn + Width(address)
      invariant |texts| == c - address.startColumn
      invariant forall i :: 0 <= i < |texts| ==> texts[i] == CellText(sheet.GetValue(row, address.startColumn + i))
    {
      texts := texts + [CellText(sheet.GetValue(row, c))];
      c := c + 1;
    }
  }
}
