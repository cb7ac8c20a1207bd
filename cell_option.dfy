/** Per-cell options of a text cell as the loader records them: the comment and the font and
    background colour codes, kept only when they differ from the default appearance. */
module CellOption {
  import opened Common
  import opened Excel

  /** Codes of the default appearance: black text on a white background. */
  const DefaultFontColor: string := "#FF000000"
  const DefaultBackgroundColor: string := "#FFFFFFFF"

  /** The author `AddComment` records for comments the converter writes. */
  const CommentAuthor: string := "REF"

  /** `GetColorCode`: "#" and the ARGB digits when the colour has them; `null` for a theme
      colour, whatever its ARGB digits (the warning printed then is not modelled). */
  function GetColorCode(color: ExcelColor): (r: NString)
    ensures r == if color.theme.None? && !IsNullOrEmpty(color.rgb) then Some("#" + color.rgb.value) else None
  {
    if color.theme.Some? then None
    else if !IsNullOrEmpty(color.rgb) then Some("#" + color.rgb.value)
    else None
  }

  /** The text of the cell's comment, `null` without one. */
  function CommentText(style: CellStyle): NString {
    if style.comment.Some? then Some(style.comment.value.text) else None
  }

  /** The `changed` flag: a comment, a font colour other than black or a background other than
      white. */
  predicate Changed(comment: NString, fontColor: NString, backgroundColor: NString) {
    || !IsNullOrEmpty(comment)
    || (!IsNullOrEmpty(fontColor) && fontColor.value != DefaultFontColor)
    || (!IsNullOrEmpty(backgroundColor) && backgroundColor.value != DefaultBackgroundColor)
  }

  /** `CellOption.Get`: `null` exactly when the cell has no comment text and both colour codes
      are missing or the default; otherwise the comment and both codes, unfiltered. */
  function Get(style: CellStyle): (r: Option<(NString, NString, NString)>)
    ensures r.None? <==>
      IsNullOrEmpty(CommentText(style))
      && (IsNullOrEmpty(GetColorCode(style.font)) || GetColorCode(style.font).value == DefaultFontColor)
      && (IsNullOrEmpty(GetColorCode(style.fill)) || GetColorCode(style.fill).value == DefaultBackgroundColor)
    ensures r.Some? ==> r.value == (CommentText(style), GetColorCode(style.font), GetColorCode(style.fill))
  {
    var comment := CommentText(style);
    var fontColor := GetColorCode(style.font);
    var backgroundColor := GetColorCode(style.fill);
    if Changed(comment, fontColor, backgroundColor) then Some((comment, fontColor, backgroundColor)) else None
  }

  /** `ColorTranslator.FromHtml` followed by `SetColor`: the cell takes the hex digits after the
      "#" as its ARGB value, and the colour stops being a theme colour. */
  function HtmlColor(code: string): ExcelColor {
    ExcelColor(Some(if |code| > 0 && code[0] == '#' then code[1..] else code), None, None)
  }

  /** The style `CellOption.Set` leaves: a comment by "REF" when one is given, the font colour
      when one is given, and a solid fill in the background colour when one is given; each
      missing or empty argument leaves its part of the style alone. */
  function Applied(style: CellStyle, comment: NString, fontColor: NString, backgroundColor: NString): (r: CellStyle)
    ensures r.comment == if IsNullOrEmpty(comment) then style.comment else Some(Comment(comment.value, CommentAuthor))
    ensures r.font == if IsNullOrEmpty(fontColor) then style.font else HtmlColor(fontColor.value)
    ensures IsNullOrEmpty(backgroundColor) ==> r.fill == style.fill && r.pattern == style.pattern
    ensures !IsNullOrEmpty(backgroundColor) ==> r.fill == HtmlColor(backgroundColor.value) && r.pattern == Solid
    ensures r.wrapText == style.wrapText
  {
    var withComment := if IsNullOrEmpty(comment) then style
      else style.(comment := Some(Comment(comment.value, CommentAuthor)));
    var withFont := if IsNullOrEmpty(fontColor) then withComment
      else withComment.(font := HtmlColor(fontColor.value));
    if IsNullOrEmpty(backgroundColor) then withFont
    else withFont.(pattern := Solid, fill := HtmlColor(backgroundColor.value))
  }

  /** `AddComment` throws `InvalidOperationException` when the cell already has a comment. */
  predicate CommentClash(style: CellStyle, comment: NString) {
    !IsNullOrEmpty(comment) && style.comment.Some?
  }

  /** `CellOption.Set` on the cell (row, column): the `AddComment` of a non-empty comment comes
      first, so a cell that already has a comment throws before anything changes. */
  method Set(sheet: Worksheet, row: int, column: int, comment: NString, fontColor: NString, backgroundColor: NString)
    returns (r: Result<()>)
    modifies sheet
    ensures r.Err? <==> CommentClash(old(sheet.Style(row, column)), comment)
    ensures r.Err? ==> r.error == InvalidOperation && sheet.State() == old(sheet.State())
    ensures r.Ok? ==> sheet.State() == WithStyle(old(sheet.State()), row, column,
                                                 Applied(old(sheet.Style(row, column)), comment, fontColor, backgroundColor))
    ensures sheet.isProtected == old(sheet.isProtected) && sheet.tabSelected == old(sheet.tabSelected)
  {
    var style := sheet.Style(row, column);
    if !IsNullOrEmpty(comment) {
      if style.comment.Some? {
        return Err(InvalidOperation);
      }
      style := style.(comment := Some(Comment(comment.value, CommentAuthor)));
    }
    if !IsNullOrEmpty(fontColor) {
      style := style.(font := HtmlColor(fontColor.value));
    }
    if !IsNullOrEmpty(backgroundColor) {
      style := style.(pattern := Solid, fill := HtmlColor(backgroundColor.value));
    }
    sheet.SetStyle(row, column, style);
    return Ok(());
  }

  /** A colour code `Set` can write and `GetColorCode` read back: none, or "#" and digits. */
  predicate ColorCode(code: NString) {
    IsNullOrEmpty(code) || (|code.value| > 1 && code.value[0] == '#')
  }

  /** `null` for a missing or empty string. */
  function NullIfEmpty(s: NString): (r: NString)
    ensures IsNullOrEmpty(s) <==> r.None?
    ensures r.Some? ==> r == s
  {
    if IsNullOrEmpty(s) then None else s
  }

  /** Writing options to a cell of the default appearance and reading them back gives the
      non-empty options, or `null` when they are all default. */
  lemma GetAfterSet(comment: NString, fontColor: NString, backgroundColor: NString)
    requires ColorCode(fontColor) && ColorCode(backgroundColor)
    ensures Get(Applied(DefaultStyle, comment, fontColor, backgroundColor)) ==
      var options := (NullIfEmpty(comment), NullIfEmpty(fontColor), NullIfEmpty(backgroundColor));
      if Changed(options.0, options.1, options.2) then Some(options) else None
  {
    var style := Applied(DefaultStyle, comment, fontColor, backgroundColor);
    if !IsNullOrEmpty(fontColor) {
      assert "#" + fontColor.value[1..] == fontColor.value;
    }
    if !IsNullOrEmpty(backgroundColor) {
      assert "#" + backgroundColor.value[1..] == backgroundColor.value;
    }
    assert GetColorCode(style.font) == NullIfEmpty(fontColor);
    assert GetColorCode(style.fill) == NullIfEmpty(backgroundColor);
  }
}
