# TextDataConverter in Dafny

TextDataConverter converts an editable Excel workbook to and from a directory of per-sheet
JSON or YAML files. This Dafny project models the bookkeeping around that conversion and
proves properties of it.

Each edit worksheet lays out one sheet of records:
- the sheet identifier sits in row 1, column 2;
- the language names run along row 2 from column 4 on;
- each record is a row from row 3 on, with its description in column 2, its enum name in
  column 3 and its texts from column 4 on.

Cell comments and colours travel with the texts, either as cell records or as per-record
option files. `RecordOption.GetColorCode` (`Source/RecordOption.cs:213-230`) is the same code as
`CellOption.GetColorCode`, and the model uses the latter for both.

Each module follows one source file.

| module | file | source |
|---|---|---|
| `Common` | common.dfy | the .NET routines the core relies on: nullable strings, `IsNullOrEmpty`, ASCII `ToLower`, `Split`, `Trim`, `Contains`, decimal formatting and `Convert.ToInt32` |
| `Data` | data.dfy | `Source/Data.cs` and `Source/Constants.cs` |
| `Excel` | excel.dfy | the spreadsheet library, as the core uses it |
| `SheetOrder` | sheet_order.dfy | the `MoveToStart` reordering, stated on names |
| `StringExtensions` | string_extensions.dfy | `Source/Library/StringExtensions.cs` |
| `ExcelUtility` | excel_utility.dfy | `Source/Library/ExcelUtility.cs` |
| `CellOption` | cell_option.dfy | `Source/CellOption.cs` |
| `CellDataUtility` | cell_data_utility.dfy | `Source/CellDataUtility.cs` |
| `Path` | path.dfy | `Path.ChangeExtension` and `Path.GetExtension` |
| `Settings` | settings.dfy | `Source/Settings.cs` |
| `Store` | store.dfy | the content directory |
| `DataWriter` | data_writer.dfy | `Source/DataWriter.cs` |
| `DataLoader` | data_loader.dfy | `Source/DataLoader.cs` |
| `ExcelDataLoader` | excel_data_loader.dfy | `Source/ExcelDataLoader.cs` |
| `SheetWriter` | sheet_writer.dfy | the per-worksheet part of `Source/EditExcelBuilder.cs` |
| `EditExcelBuilder` | edit_excel_builder.dfy | the rest of `Source/EditExcelBuilder.cs` |
| `RecordOption` | record_option.dfy | `Source/RecordOption.cs` |

The content directory is a class with two fields:
- whether it exists;
- a map from file name to what the file deserialises to.

The order in which `Directory.EnumerateFiles` lists the files is not fixed by .NET. It is a
parameter of the loader, and `Store.Enumerates` says which listings are possible.

**Worksheets and workbooks**
- A worksheet is a class whose methods change its cells, styles, used range, row count,
  column widths and two flags.
- Each method states the new `State()` as a function of the old one.
- A workbook holds a sequence of worksheets. Their names are unique and non-empty.

**Loops.** Each loop of the source is a Dafny `while` loop in a method proved against a fold
function. Lemmas about the fold function state what the source promises.

**Things outside the core become parameters:**
- the existence of the origin file, and the directory listings;
- the autofit width (`fit`), and the cell-record setter of the builder (`apply`), which gives a new style or an exception;
- the supply of fresh guids (`mint`, a counter), and the option-file extension.

**Points where the code decides what the program's documentation leaves open:**
- The loader matches the template worksheet name case-sensitively (`Source/ExcelDataLoader.cs:49`). The builder lower-cases the worksheet name first (`Source/EditExcelBuilder.cs:47`).
- A record guid is reused only from the first stored record with the same enum name, and only when it is non-empty. There is no other fallback.
- The loader's header count runs `c < rowValues.Length` (`Source/ExcelDataLoader.cs:114`). So the last column of the used range never counts as a language column. The model keeps that bound (`ExcelDataLoader.LanguageColumns`).
- The builder reads `record.texts` and `record.cells`, and `RecordOption` reads `record.line`, but none of these exist in `Source/Data.cs`. Each component gets the record shape it reads (`SheetWriter.EditRecord`, `RecordOption.OptionRecord`).

## Model

| member | source | states |
|---|---|---|
| Common.Split | Source/CellDataUtility.cs:17 | `Split` yields at least one piece |
| Common.SplitCount | Source/Settings.cs:86 | `Split` yields one piece more than there are separators |
| Common.SplitJoin | Source/Settings.cs:86 | no piece holds the separator, and joining the pieces with it gives back the input |
| Common.SplitAtSeparator | Source/EditExcelBuilder.cs:187-190 | text before the first separator is piece 0; the rest splits on its own |
| Common.TrimShape | Source/CellDataUtility.cs:62 | `Trim` yields a slice of the input that neither starts nor ends with a trimmed character |
| Common.TrimIdempotent | Source/CellDataUtility.cs:62 | trimming twice is trimming once |
| Common.ContainsIffOccurs | Source/Library/StringExtensions.cs:145 | `Contains` holds exactly when the substring occurs at some index |
| Common.ContainsChar | Source/EditExcelBuilder.cs:174 | containing the one-character string "c" is containing the character c |
| Common.NatToStringDigits | Source/CellDataUtility.cs:46 | the decimal text of a natural number is all digits, and those digits denote the number |
| Common.IntToStringRoundTrip | Source/CellDataUtility.cs:46 | `Convert.ToInt32` of the text `{0}` formats gives back any 32-bit integer, also with a space on either side |
| Common.ParseInt32 | Source/EditExcelBuilder.cs:194-195 | `Convert.ToInt32` throws `FormatException` exactly when the text, less the white space it allows around it, is no optional sign followed by at least one digit; an integer text can fail only with `OverflowException`; any result is a 32-bit integer |
| Common.Wrap32 | Source/Library/StringExtensions.cs:57 | C# `int` addition: the sum wrapped into 32 bits, congruent to the exact sum modulo 2^32 and equal to it when it fits |
| Common.IntToStringNoComma | Source/CellDataUtility.cs:46 | a formatted integer contains no comma, so the row and column parts of an address stay apart |
| Excel.Copied | Source/EditExcelBuilder.cs:227-233 | a copy gives the target cell the source cell's value and style and changes no other cell |
| Excel.AutoFitted | Source/EditExcelBuilder.cs:204-206 | fitting sets the width of exactly the columns of the range; values, styles and the used range stay as they were |
| Excel.WithValue | Source/EditExcelBuilder.cs:120 | a write changes that one cell's value and no other cell, style or width |
| Excel.WithStyle | Source/CellOption.cs:20-37 | a restyle changes that one cell's style and no value, no other style, nor the used range or widths |
| Excel.FindSheet | Source/EditExcelBuilder.cs:106 | `FirstOrDefault` by name finds the first worksheet with that name, or reports that none has it |
| Excel.Worksheet.Clone | Source/EditExcelBuilder.cs:66 | a new worksheet under the given name, holding the template's contents and flags |
| Excel.Worksheet.SetValue | Source/EditExcelBuilder.cs:120 | the new state is the write of one cell; the flags are kept |
| Excel.Worksheet.SetStyle | Source/EditExcelBuilder.cs:174 | the new state is the restyle of one cell; the flags are kept |
| Excel.Worksheet.CopyCell | Source/EditExcelBuilder.cs:227-233 | `CloneCellFormat`: the new state is the copy of one cell onto another in the same column |
| Excel.Worksheet.AutoFitColumns | Source/EditExcelBuilder.cs:204-206 | the new state is the fitted state |
| Excel.Worksheet.SetWidth | Source/EditExcelBuilder.cs:215 | only the width of that column changes |
| Excel.Worksheet.AppendRow | Source/EditExcelBuilder.cs:140-143 | only the row count grows, by one |
| Excel.Workbook.Add | Source/EditExcelBuilder.cs:66 | the worksheet is appended, and names stay unique |
| Excel.Workbook.MoveToStart | Source/EditExcelBuilder.cs:89 | the named worksheet becomes first and the others keep their order; the same worksheets remain, with unique names |
| SheetOrder.Remove | Source/EditExcelBuilder.cs:89 | removing a name keeps exactly the other names |
| SheetOrder.MoveToStartPermutation | Source/EditExcelBuilder.cs:89 | moving a worksheet to the start keeps the names unique and is a permutation |
| SheetOrder.ReorderPermutation | Source/EditExcelBuilder.cs:81-91 | the reverse loop over the index leaves a permutation of the worksheets, with unique names |
| SheetOrder.ReorderShape | Source/EditExcelBuilder.cs:81-91 | after the loop the worksheets the index names come first, each once in the order of its first mention; the others follow in their old order |
| SheetOrder.ListedFirstMentions | Source/EditExcelBuilder.cs:83-89 | the leading part is exactly the names both present and in the index, without repetition, ordered by first mention |
| SheetOrder.UnlistedNone | Source/EditExcelBuilder.cs:81 | with an empty index, no worksheet moves |
| SheetOrder.Position | Source/EditExcelBuilder.cs:83-89 | the first mention of a name in the index is where it occurs and no earlier |
| StringExtensions.Combine | Source/Library/StringExtensions.cs:14-26 | the value (null as empty) followed by every non-null, non-empty target, in order |
| StringExtensions.Present | Source/Library/StringExtensions.cs:20 | the kept targets are all non-empty |
| StringExtensions.TwoPassesAreOne | Source/Library/StringExtensions.cs:37 | the two `Replace` passes equal a one-pass conversion of each "\r\n" and each lone "\r" to the new line |
| StringExtensions.FixLineEndIsNormalization | Source/Library/StringExtensions.cs:29-41 | `FixLineEnd` of non-empty text is that one-pass conversion, whether or not the text contains "\r" |
| StringExtensions.NormalizeToLineFeed | Source/Library/StringExtensions.cs:29-41 | converting to "\n" leaves no "\r", and leaves a "\n" exactly where the input had a line break |
| StringExtensions.FixLineEndDefault | Source/Library/StringExtensions.cs:29-41 | null for null or empty input; otherwise no "\r" in the output, text without "\r" unchanged, and a "\n" exactly when the input has a line break |
| StringExtensions.SkipIsSlice | Source/Library/StringExtensions.cs:71 | LINQ `Skip` is the slice from the clamped index |
| StringExtensions.TakeIsSlice | Source/Library/StringExtensions.cs:71 | LINQ `Take` is the slice up to the clamped length |
| StringExtensions.SafeSubstring | Source/Library/StringExtensions.cs:67-72 | never fails: null as empty, the characters from the clamped start, at most `length` of them, never longer than the input |
| StringExtensions.SubstringEquals | Source/Library/StringExtensions.cs:55-60 | false when the wrapped end `startIndex + length` lies past the end; when the sum fits, exactly equality of the slice with the target; when it overflows, the wrapped sum passes the test and the comparison is of the rest of the text from the clamped start |
| StringExtensions.SubstringEqualsWraps | Source/Library/StringExtensions.cs:57 | the sum 1 + `int.MaxValue` wraps to `int.MinValue`, so `"abc".SubstringEquals(1, int.MaxValue, "bc")` is true |
| StringExtensions.IsMatch | Source/Library/StringExtensions.cs:134-155 | true exactly when the text is non-empty and contains every lower-cased keyword lower-cased; an empty keyword list matches any non-empty text |
| StringExtensions.FindClose | Source/Library/StringExtensions.cs:160 | the lazy `<.*?>` match ends at a `>` |
| StringExtensions.FindCloseNone | Source/Library/StringExtensions.cs:160 | with no match, every later `>` has a line feed before it |
| StringExtensions.FindCloseSome | Source/Library/StringExtensions.cs:160 | a match contains no line feed |
| StringExtensions.RemoveTagLeavesNoTag | Source/Library/StringExtensions.cs:158-161 | after `RemoveTag`, a line feed lies between every `<` and every later `>` |
| StringExtensions.RemoveTagBounds | Source/Library/StringExtensions.cs:158-161 | `RemoveTag` never lengthens text and leaves text without `<` unchanged |
| ExcelUtility.ConvertValue | Source/Library/ExcelUtility.cs:23-35 | a string is returned as it is; a convertible value gives its text; a failed cast or no value gives null |
| ExcelUtility.ConvertValueAt | Source/Library/ExcelUtility.cs:38-48 | `ArgumentOutOfRangeException` exactly when the index is outside the array, otherwise the conversion of that element |
| ExcelUtility.GetRowValues | Source/Library/ExcelUtility.cs:51-65 | `End.Column - Start.Column + 1` values; element i is the cell in column `Start.Column + i` |
| ExcelUtility.GetRowValueTexts | Source/Library/ExcelUtility.cs:68-80 | the texts of the same cells, with the same length and order as `GetRowValues` |
| CellOption.GetColorCode | Source/CellOption.cs:55-72 | null whenever a theme is set or there are no ARGB digits; otherwise "#" followed by the ARGB digits |
| CellOption.Get | Source/CellOption.cs:39-53 | null exactly when there is no comment text and each colour code is missing or the default (black font, white fill); otherwise the raw comment and codes, unfiltered |
| CellOption.Applied | Source/CellOption.cs:20-37 | a "REF" comment only for a non-empty comment, the font colour only when given, and a solid fill in the background colour only when given; wrap is untouched |
| CellOption.Set | Source/CellOption.cs:20-37 | `AddComment` throws `InvalidOperationException`, with nothing changed, exactly when a non-empty comment meets a cell that already has one; otherwise the new state restyles exactly the addressed cell, as `Applied` states |
| CellOption.NullIfEmpty | Source/CellOption.cs:41-44 | null exactly for null or empty text |
| CellOption.GetAfterSet | Source/CellOption.cs:20-53 | options written to a default cell read back as their non-empty parts, or as null when those are all default |
| CellDataUtility.GetColor | Source/CellDataUtility.cs:74-90 | null exactly when there are no ARGB digits and no theme; empty digits become null; the tint is kept only with a theme |
| CellDataUtility.CommentOf | Source/CellDataUtility.cs:49-63 | an "author:" prefix is dropped when the author is non-empty, then line feeds are trimmed from both ends |
| CellDataUtility.Get | Source/CellDataUtility.cs:40-72 | the indexer throws `ArgumentException` exactly for a cell outside the sheet; otherwise null exactly when the comment text is empty and neither colour has digits or a theme (the pattern does not count), and else address "row,column", the comment without its author prefix, the pattern and both colours |
| CellDataUtility.AddressPartsOf | Source/CellDataUtility.cs:17-46 | the address `Get` writes splits back into the row text and the column text |
| CellDataUtility.SetColor | Source/CellDataUtility.cs:92-109 | an empty colour changes nothing; a theme wins over ARGB, and the tint is applied only with a theme; otherwise the ARGB digits are set |
| CellDataUtility.StyleAfterSet | Source/CellDataUtility.cs:29-37 | a comment only when non-empty, the pattern type always, both colours through `SetColor` |
| CellDataUtility.Apply | Source/CellDataUtility.cs:13-38 | a null record or an address with a missing part changes nothing; else the column and then the row go through `Convert.ToInt32`, whose exception escapes; a cell outside the sheet throws `ArgumentException`; a non-empty comment on a cell that has one throws `InvalidOperationException`; otherwise exactly that cell is restyled as `StyleAfterSet` states |
| CellDataUtility.Set | Source/CellDataUtility.cs:13-38 | the worksheet ends in the state `Apply` gives, or keeps its state and reports `Apply`'s exception |
| CellDataUtility.SetColorRoundTrip | Source/CellDataUtility.cs:74-109 | a colour that is not both ARGB and theme survives `SetColor` followed by `GetColor` |
| CellDataUtility.SetAfterGet | Source/CellDataUtility.cs:13-72 | writing the record `Get` returns for a cell onto the same cell of a sheet where it has the default style succeeds, and reading that cell back gives the same record |
| Path.LastDot | Source/Settings.cs:58 | the last '.' with no separator after it |
| Path.Stem | Source/Settings.cs:58 | the path without its extension is a prefix of it |
| Path.ChangeExtension | Source/Settings.cs:58 | an empty path stays empty; otherwise the stem followed by the new extension |
| Path.GetExtension | Source/DataLoader.cs:43 | empty, or a '.' and at least one more character that end the path |
| Path.GetExtensionOfSuffix | Source/DataLoader.cs:43 | a name followed by a proper extension has that extension |
| Path.ChangeExtensionProperties | Source/DataLoader.cs:25 | after the change the path has exactly the new extension, and changing it again changes nothing |
| Settings.FileFormat | Source/Settings.cs:39-53 | JSON exactly when the setting lower-cases to "json", otherwise YAML |
| Settings.GetFileExtension | Source/Settings.cs:91-106 | ".json" for JSON and ".yaml" for YAML; either is a proper extension |
| Settings.EditExcelFileNameExtension | Source/Settings.cs:56-59 | a non-empty file name always ends with the ".xlsx" extension; an empty one stays empty |
| Settings.IgnoreSheetNamesShape | Source/Settings.cs:86 | one name more than commas; each name contains no comma and neither starts nor ends with a character `char.IsWhiteSpace` accepts |
| Store.LoadSheetFile | Source/DataLoader.cs:67-70 | a sheet exactly when the file holds one |
| Store.LoadIndexFile | Source/DataLoader.cs:29 | an index exactly when the file holds one |
| Store.ContentDirectory.constructor | Source/DataLoader.cs:42 | a directory with the given existence and files |
| Store.ContentDirectory.Clean | Source/DataWriter.cs:81 | the directory exists and is empty |
| Store.ContentDirectory.WriteFile | Source/DataWriter.cs:68 | the file of that name holds the new content afterwards and no other file changes |
| DataWriter.LastWriter | Source/DataWriter.cs:52-72 | the last qualifying sheet written to a name |
| DataWriter.WrittenFiles | Source/DataWriter.cs:52-72 | a file exists exactly for the names some qualifying sheet is written to, and holds the last qualifying sheet written to its name |
| DataWriter.WriteSheetIndex | Source/DataWriter.cs:24-38 | `DirectoryNotFoundException` with the directory unchanged when it is absent; otherwise the index file holds exactly the given names |
| DataWriter.WriteAllSheetData | Source/DataWriter.cs:40-73 | `ArgumentException` for a missing workspace; otherwise the directory is cleaned first, even for no sheets, and then holds exactly the files of the qualifying sheets |
| DataWriter.CreateCleanDirectory | Source/DataWriter.cs:75-82 | `ArgumentException` exactly for a null or empty workspace; otherwise an existing, empty directory |
| DataLoader.LoadSheetIndex | Source/DataLoader.cs:19-30 | null when the directory is missing; otherwise what the index file, named after the edit workbook with ".index", holds |
| DataLoader.LoadSheetData | Source/DataLoader.cs:67-70 | the sheet a file holds, or null |
| DataLoader.Candidates | Source/DataLoader.cs:42-44 | every candidate is a listed file with the configured extension, and every such file is a candidate |
| DataLoader.Loaded | Source/DataLoader.cs:52-62 | never more sheets than files |
| DataLoader.LoadingNames | Source/DataLoader.cs:52-62 | the names whose files hold a sheet: each listed, and every listed name with a sheet file among them |
| DataLoader.LoadedShape | Source/DataLoader.cs:52-62 | the loaded sheets are, one for one and in order, the sheets of the names whose files hold one; files that hold none are skipped |
| DataLoader.LoadAllSheetData | Source/DataLoader.cs:32-65 | null when the directory is missing; otherwise the sheets of the candidate files of the given enumeration that load, in enumeration order (an empty array when none match) |
| DataLoader.LoadedAll | Source/DataLoader.cs:52-62 | when every file loads, one sheet per file, in order |
| DataLoader.CandidatesAll | Source/DataLoader.cs:42-44 | when every file has the extension, all are candidates |
| DataLoader.WrittenNames | Source/DataWriter.cs:64 | every written file is named after a qualifying sheet plus the extension |
| DataLoader.LoadAfterWrite | Source/DataWriter.cs:52-72 | for any enumeration of the written files, loading gives one sheet per file in enumeration order, each the last qualifying sheet written to that name |
| ExcelDataLoader.LoadExistSheetData | Source/ExcelDataLoader.cs:162-171 | the stored sheet of that name, exactly when the file `sheetName + extension` holds a sheet |
| ExcelDataLoader.FirstByEnumName | Source/ExcelDataLoader.cs:88 | the first stored record with that enum name, or none |
| ExcelDataLoader.CountFromBound | Source/ExcelDataLoader.cs:114 | counted header columns stay below `rowValues.Length` |
| ExcelDataLoader.CountFromShape | Source/ExcelDataLoader.cs:112-123 | counted columns are non-empty and below the bound; counting stops at an empty cell or at the bound |
| ExcelDataLoader.LanguageColumns | Source/ExcelDataLoader.cs:112-123 | the language columns are the contiguous non-empty header cells of row 2 from column 4, stopping at the first empty one or before column `rowValues.Length` |
| ExcelDataLoader.RowRecordShape | Source/ExcelDataLoader.cs:76-148 | the row rules below this table |
| ExcelDataLoader.RowsErrorStays | Source/ExcelDataLoader.cs:74-149 | an exception in a row ends the row loop |
| ExcelDataLoader.RowsShape | Source/ExcelDataLoader.cs:74-149 | the rows from `RecordStartRow` with a non-empty enum name give records in ascending row order; all records have the same number of contents; a sheet with fewer than three used columns throws as soon as it has a record row |
| ExcelDataLoader.MintRangeConcat | Source/ExcelDataLoader.cs:63-98 | consecutive counter ranges join into one |
| ExcelDataLoader.MintRangeDistinct | Source/ExcelDataLoader.cs:64-100 | with an injective `mint`, the guids minted from a counter range are pairwise distinct |
| ExcelDataLoader.DrawsAppend | Source/ExcelDataLoader.cs:83-100 | one more record keeps the identifier rule: a stored guid is reused without drawing, a fresh one takes the next counter |
| ExcelDataLoader.RowRecordGuid | Source/ExcelDataLoader.cs:83-100 | a row without a record draws nothing; a record whose enum name has a non-empty stored guid reuses it and draws nothing; any other record gets `mint(next)` and advances the counter by one |
| ExcelDataLoader.RowsUnfold | Source/ExcelDataLoader.cs:74-149 | the row loop up to a row is the loop up to the row before it followed by that row's record |
| ExcelDataLoader.RowsGuids | Source/ExcelDataLoader.cs:74-149 | over all rows: every record reuses its stored guid when one exists, and the fresh records' guids are, in row order, `mint` of the counters from `next` up to the counter after the loop, each drawn once |
| ExcelDataLoader.SheetForGuids | Source/ExcelDataLoader.cs:59-149 | a worksheet that gives no sheet draws nothing; a sheet reuses the stored sheet's guid or draws one first, then its records draw as `RowsGuids` states, all from one counter range |
| ExcelDataLoader.SheetsGuids | Source/ExcelDataLoader.cs:47-156 | over all worksheets: every sheet and record reuses its stored guid when one exists, and the fresh guids, in tab and row order, are `mint` of consecutive counters from `next`, each counter drawn once |
| ExcelDataLoader.SheetsErrorStays | Source/ExcelDataLoader.cs:47-156 | an exception in a worksheet ends the sheet loop |
| ExcelDataLoader.SheetsSelection | Source/ExcelDataLoader.cs:47-70 | exactly the worksheets that are neither the template (case-sensitive) nor ignored and have an identifier become sheets, in tab order; each has records (their identifiers are stated by `SheetsGuids`) |
| ExcelDataLoader.LoadSheetNames | Source/ExcelDataLoader.cs:15-32 | null when the workbook is missing; otherwise the worksheet names in tab order |
| ExcelDataLoader.CountLanguageColumns | Source/ExcelDataLoader.cs:112-123 | the loop ends at `TextStartColumn` plus the language count |
| ExcelDataLoader.ReadContents | Source/ExcelDataLoader.cs:127-144 | one content per language column: the text from column 4+i, and the options `CellOption.Get` reports, or all null |
| ExcelDataLoader.LoadRow | Source/ExcelDataLoader.cs:76-148 | the record of one row is the one `RowRecordShape` describes |
| ExcelDataLoader.LoadWorksheet | Source/ExcelDataLoader.cs:49-153 | the sheet of one worksheet, as the fold defines it |
| ExcelDataLoader.LoadSheetData | Source/ExcelDataLoader.cs:35-160 | null when the workbook is missing; otherwise the sheets in tab order, or the exception of the first malformed row; stored guids are reused and fresh guids take consecutive distinct counters, as `SheetsGuids` states |
| SheetWriter.WrapRule | Source/EditExcelBuilder.cs:174 | a non-empty text is wrapped exactly when it contains "\r" or "\n" |
| SheetWriter.TextsShape | Source/EditExcelBuilder.cs:167-178 | a non-empty text j becomes the value of column 4+j, whose style gains the wrap flag; an empty text leaves its cell alone, as are all other cells |
| SheetWriter.CellsKeepValues | Source/EditExcelBuilder.cs:183-198 | cell records restyle cells and change no value, used range, row count or width |
| SheetWriter.RecordShape | Source/EditExcelBuilder.cs:156-199 | the enum name goes to column 3, the description to column 2, and the non-empty texts from column 4; nothing outside the row changes value |
| SheetWriter.RecordsKeepAbove | Source/EditExcelBuilder.cs:154-200 | the records leave rows above them and widths as they were |
| SheetWriter.RecordsFields | Source/EditExcelBuilder.cs:154-164 | record i's enum name and description are in row `RecordStartRow + i`, columns 3 and 2 |
| SheetWriter.RecordsTexts | Source/EditExcelBuilder.cs:154-178 | non-empty text j of record i is in row `RecordStartRow + i`, column 4+j |
| SheetWriter.CopyColumnsShape | Source/EditExcelBuilder.cs:146-149 | copying cell formats touches only the target row |
| SheetWriter.PrepareRowsShape | Source/EditExcelBuilder.cs:135-150 | preparing record rows changes no row above them and no width |
| SheetWriter.FloorShape | Source/EditExcelBuilder.cs:208-217 | each column of the range ends as the wider of its current and base widths; nothing else changes |
| SheetWriter.SheetShape | Source/EditExcelBuilder.cs:120-217 | the identifier is in row 1, column 2, and records with their fields at the addresses above; no column of the used range ends narrower than it was, and columns beyond the fitted range (columns 1 to `End.Column`) keep their width |
| SheetWriter.LoaderReadsWrittenFields | Source/EditExcelBuilder.cs:120-178 | the loader's reads at those addresses give back the identifier, enum names, descriptions and non-empty texts |
| SheetWriter.CellAddressRoundTrip | Source/EditExcelBuilder.cs:187-197 | an address in the form `CellDataUtility.Get` writes for a 32-bit cell is parsed back to that cell, and the setter restyles it |
| SheetWriter.CellWrittenOutcome | Source/EditExcelBuilder.cs:181-197 | a null record or a missing part is skipped; a row part that is no integer text throws `FormatException` and one outside 32 bits `OverflowException`, before the column is read; the column part throws likewise; otherwise the setter's result, exception or new style, decides |
| SheetWriter.ColumnWidths | Source/EditExcelBuilder.cs:124-131 | the width of each column of the used range |
| SheetWriter.PrepareRecordRow | Source/EditExcelBuilder.cs:137-149 | a row is inserted when the sheet is shorter, and columns 1 to `End.Column - 1` are copied from the first record row |
| SheetWriter.CopyRecordColumns | Source/EditExcelBuilder.cs:145-149 | columns 1 to `End.Column - 1` of the record row are copied, one `CloneCellFormat` each, from the first record row |
| SheetWriter.PrepareRecordRows | Source/EditExcelBuilder.cs:135-150 | every record row is prepared that way |
| SheetWriter.WriteTexts | Source/EditExcelBuilder.cs:167-178 | the new state is the fold `TextsShape` describes |
| SheetWriter.WriteCells | Source/EditExcelBuilder.cs:181-199 | each cell record is skipped when null or missing a part; otherwise `Convert.ToInt32` parses it, which may throw, and the setter restyles the cell or throws; the first exception stops the loop |
| SheetWriter.WriteRecord | Source/EditExcelBuilder.cs:156-199 | the new state, or the exception, for one record |
| SheetWriter.WriteRecords | Source/EditExcelBuilder.cs:154-200 | the new state, or the exception, for all records from `RecordStartRow` |
| SheetWriter.FloorColumns | Source/EditExcelBuilder.cs:208-217 | a column narrower than its base width is widened to it |
| SheetWriter.WriteSheet | Source/EditExcelBuilder.cs:114-217 | the new state, or the exception, of one worksheet whose sheet has records; the flags are kept |
| EditExcelBuilder.FindTemplate | Source/EditExcelBuilder.cs:47 | the first worksheet whose lower-cased name equals the template setting, or none |
| EditExcelBuilder.Owner | Source/EditExcelBuilder.cs:104-106 | the first sheet displayed under a name |
| EditExcelBuilder.DisplayNamesMember | Source/EditExcelBuilder.cs:58 | the clone names are exactly the non-empty display names |
| EditExcelBuilder.ClonesShape | Source/EditExcelBuilder.cs:56-77 | creation succeeds exactly when existing and display names are all different, and then adds one clone per display name, in order; otherwise it throws naming a display name |
| EditExcelBuilder.OwnerOfDisplayName | Source/EditExcelBuilder.cs:104-106 | with unique display names, each sheet is the owner of its own clone |
| EditExcelBuilder.ReorderedNames | Source/EditExcelBuilder.cs:81-91 | reordering keeps the names unique, non-empty and the same |
| EditExcelBuilder.CreateClones | Source/EditExcelBuilder.cs:56-77 | one fresh, unprotected, unselected copy of the template per display name, appended in order, or the duplicate-name exception |
| EditExcelBuilder.ReorderSheets | Source/EditExcelBuilder.cs:83-90 | the names end as `SheetOrder.Reorder` of the old names; the worksheets are the same |
| EditExcelBuilder.CloneFound | Source/EditExcelBuilder.cs:106 | the worksheet found for a sheet's display name is its own clone, and exists exactly when the name is non-empty |
| EditExcelBuilder.WriteOne | Source/EditExcelBuilder.cs:104-118 | one round of the write loop: sheets without worksheet or records are skipped, and the rest are written into their clones |
| EditExcelBuilder.WriteFound | Source/EditExcelBuilder.cs:114-217 | a sheet with records found among the clones is written into its own clone: the result is its write's exception or success, and on success the clones of all sheets up to it hold their records while the others still hold the template |
| EditExcelBuilder.WriteSheets | Source/EditExcelBuilder.cs:104-220 | succeeds exactly when no sheet's write throws, with the first exception otherwise; every clone ends holding its own sheet's records |
| EditExcelBuilder.Prepare | Source/EditExcelBuilder.cs:56-100 | clones added, the worksheets reordered when there is an index, the first worksheet tab-selected; old worksheets keep their contents and protection |
| EditExcelBuilder.Build | Source/EditExcelBuilder.cs:18-225 | the Build rules listed below this table |
| RecordOption.GetCellInfo | Source/RecordOption.cs:185-211 | null exactly when the comment is empty and each colour code is missing or the default; otherwise the comment and codes as read; null for the same cells as `CellOption.Get`, with the same content otherwise |
| RecordOption.SetCellInfos | Source/RecordOption.cs:164-183 | null changes nothing; a non-empty comment on a cell that has one throws `InvalidOperationException` with nothing changed; otherwise each non-empty field is applied as `CellOption.Set` applies it |
| RecordOption.CellInfoRoundTrip | Source/RecordOption.cs:164-211 | information put on a default cell reads back as its non-empty fields, or as null when they are all default |
| RecordOption.AddressableCells | Source/RecordOption.cs:73-78 | all text cells of a record can be addressed exactly when its row and its last text column can |
| RecordOption.RecordFileShape | Source/RecordOption.cs:61-88 | an option file exactly when there is an enum name, the text cells are addressable and one reports information; cell i at index i, named after the record; a cell outside the sheet throws |
| RecordOption.RecordFilesShape | Source/RecordOption.cs:59-90 | every file written is a record's option file, named `enumName + extension` in the sheet's directory; without an exception, every record with an option file has it written |
| RecordOption.ReadCellInfos | Source/RecordOption.cs:65-78 | fills `cellInfos` with length `texts.Length`, entry i from row `line`, column 4+i; `ArgumentException` when a cell is outside the sheet |
| RecordOption.WriteRecords | Source/RecordOption.cs:59-90 | the files written for one sheet, in order, or the exception that stops them |
| RecordOption.WriteFilesShape | Source/RecordOption.cs:37-94 | over all sheets: a sheet without identifier, records, display name or worksheet of that name writes nothing and throws nothing; every file written comes from a sheet that is written; with no exception, every sheet's files are all written |
| RecordOption.Write | Source/RecordOption.cs:37-94 | sheets without identifier or records, or without a worksheet of their display name, write nothing; the files written, in order, and the exception that stopped it |
| RecordOption.FindOption | Source/RecordOption.cs:136 | the first loaded option file whose record name equals the enum name, or none |
| RecordOption.OptionsShape | Source/RecordOption.cs:117-124 | the options used are exactly the files that have the option extension and load |
| RecordOption.InfosOutcome | Source/RecordOption.cs:140-151 | the text loop succeeds exactly when every non-null entry has a cell and puts no comment onto a cell that already has one; otherwise it throws `ArgumentException` or `InvalidOperationException` |
| RecordOption.InfosShape | Source/RecordOption.cs:140-151 | when the text loop succeeds, each text cell carries its entry, indices beyond the array count as null, and no other cell or value changes |
| RecordOption.Target | Source/RecordOption.cs:108-130 | a sheet is applied to a worksheet exactly when it has an identifier, records, a directory, loading option files and a display name some worksheet has; then to the first worksheet of that name |
| RecordOption.SheetLoaded | Source/RecordOption.cs:108-155 | a sheet with records but no directory throws `DirectoryNotFoundException`; a sheet with no target changes nothing; otherwise only the target worksheet changes, to the record loop's result, or its exception escapes |
| RecordOption.Loaded | Source/RecordOption.cs:106-156 | the states keep their number, and a worksheet no sheet targets keeps its state |
| RecordOption.LoadedTarget | Source/RecordOption.cs:106-156 | a worksheet targeted by exactly one sheet ends as that sheet's record loop leaves it |
| RecordOption.LoadedLeavesOthers | Source/RecordOption.cs:128-130 | a worksheet named by no sheet keeps its state |
| RecordOption.LoadInfos | Source/RecordOption.cs:140-151 | the new state is the text fold, or the indexer's exception |
| RecordOption.LoadRecords | Source/RecordOption.cs:130-152 | records without enum name or option file are skipped; the rest are applied from the first matching file |
| RecordOption.LoadSheet | Source/RecordOption.cs:108-155 | one sheet of `Load`: skipped without identifier, records, options or a worksheet; a missing directory throws |
| RecordOption.Load | Source/RecordOption.cs:97-162 | the worksheet states are the fold over all sheets, or the first exception; the flags are kept |

`ExcelDataLoader.RowRecordShape` states, for one row:
- a row with fewer than three values throws `ArgumentOutOfRangeException`;
- an empty enum name yields no record and draws no guid;
- otherwise the record has that enum name and description.
  - Its guid is that of the first stored record with the same enum name, when non-empty. Else it is fresh.
  - It has one content per language column.

`EditExcelBuilder.Build` states:
- A missing origin throws `FileNotFoundException` and changes nothing.
- Null sheets return with nothing changed.
- A missing template throws and changes nothing.
- Otherwise it succeeds exactly when clone creation and every sheet write succeed, with the first exception otherwise.
- On success:
  - the names are the old names plus the display names, reordered by the index;
  - the first worksheet is tab-selected;
  - old worksheets keep their contents and protection;
  - every clone is fresh, unprotected, and not tab-selected unless it is first;
  - every clone is filled with its sheet's records.

## Left out

- **Program, ConsoleUtility, IniFile, `Settings.Load`.**
  - These are command-line parsing, console output, file locks and ini reading.
  - Warnings and errors printed by the core have no effect in the model.
  - The settings are a datatype.
- **Excel internals.**
  - Font metrics behind `AutoFitColumns` are the `fit` parameter. Widths are integers rather than doubles.
  - `InsertRow` beyond the last row only increases the row count. In the library, `worksheet.Cells` spans A1:XFD1048576, so `Cells.End.Row` is 1048576 and the `InsertRow` branch (`Source/EditExcelBuilder.cs:140-143`) never runs for a row inside the sheet. The model keeps an abstract row count instead, so it lets that branch run.
  - `Copy` copies value and style.
  - `AddComment` throws `InvalidOperationException` for a cell that already has a comment; this is modelled. The comment's author is the fixed `CellOption.CommentAuthor`.
  - The model takes `ColorTranslator.FromHtml` as keeping the digits after "#", and the library's colour as storing them unchanged. In .NET, `FromHtml` normalises short (`#RGB`) and named colours, and a malformed code throws `ArgumentException`, after `AddComment` has already run. The library stores `ToArgb` as eight upper-case hexadecimal digits. So `CellOption.GetAfterSet`, `RecordOption.CellInfoRoundTrip` and `CellDataUtility.SetAfterGet` hold in the source only for colour codes written as "#" followed by eight upper-case hexadecimal digits (`#AARRGGBB`).
  - One `Other` cell text stands both for `Convert.ToString(value)` (`ExcelUtility`) and for the displayed `.Text`. They differ under a number format; the model does not tell them apart.
  - `IgnoredErrors` (`Source/EditExcelBuilder.cs:74-76`) and `Save` are not modelled.
  - A worksheet's used range always exists; the library's null `Dimension` for an empty sheet is not modelled.
- **I/O.**
  - The file copy in `Build`, the origin file's existence and `File.Exists` checks become parameters.
  - `Directory.EnumerateFiles` becomes a listing parameter.
  - JSON and YAML serialisation become opaque stored values.
  - The polling in `DirectoryUtility.Clean` is not modelled.
- **Guid minting.** `Guid.NewGuid` is the `mint` parameter over a counter. Each fresh guid takes the next counter value, so the counters drawn are distinct and increasing. `ExcelDataLoader.MintRangeDistinct` states that, for an injective `mint`, no fresh guid repeats; the uniqueness of `Guid.NewGuid` itself is not modelled.
- **Strings.**
  - `ToLower` is ASCII lower-casing; culture rules are not modelled.
  - `Convert.ToInt32` accepts the white space U+0009 to U+000D and U+0020 around an optional sign and digits, with ASCII "-" and "+" as signs. .NET uses the current culture's sign symbols, which the model does not. The trailing NUL characters that .NET also accepts are not modelled.
  - `Trim()` without arguments removes exactly the characters `char.IsWhiteSpace` accepts, listed in `Common.WhiteSpace`.
  - `comment.StartsWith(removeText)` in `CellDataUtility.Get` (`Source/CellDataUtility.cs:57`) is culture-sensitive in .NET; the model compares ordinally.
  - A Dafny `char` stands for one UTF-16 code unit. Lengths and indices in `SafeSubstring`, `SubstringEquals` and the address texts count code units, as .NET does, only for text without surrogate pairs.
  - Null where the source dereferences without a check is not modelled. This covers null entries in the targets of `StringExtensions.Combine`, null elements of a sheet's `records` or a record's `texts`, and null elements of the builder's `sheetData`. Also, `CellData.address` is always a string, and `RemoveTag` and `IsMatch` take non-null arguments where the source would throw `NullReferenceException`.
  - Hashing, `Escape` and `Unescape` are not modelled.
- SheetWriter.TextWritten and SheetWriter.CopyColumns: the worksheet indexer's `ArgumentException` for a text column 4+j beyond 16384 or a row beyond 1048576 is not modelled in the builder; the cells are written at any address. `RecordOption` does model it (`Err(Argument)`).
- `ExcelCellUtility.Set` (`Source/EditExcelBuilder.cs:197`) is not part of this model. The builder takes it as the `apply` parameter, a function from the cell's style, its row and column and the cell record to a new style or an exception. The model so assumes that it changes only the addressed cell's style, or throws before changing anything.
- The constants `CellOptionFileExtension`, `RecordFolderName`, `EditExcelFile` and `SheetIndexFileName` are referenced but not defined in `Source/Constants.cs`. They are parameters.
- RecordOption.Write: the option files are returned as a log of written files rather than written to disk. A file of the same name written twice appears twice.
- RecordOption.Load: a stored option file whose `cellInfos` is absent, which throws in the source, is not modelled: `cellInfos` is always a sequence.
- EditExcelBuilder.Build and RecordOption.Load: after an exception, the in-memory workbook state is not specified, because the workbook is not saved then.
- EditExcelBuilder.Build: a null `sheetNames` in the index, which throws in the source, is not modelled.
- EditExcelBuilder.Build: the worksheet name comparisons are ordinal, as written; Excel's case-insensitive uniqueness of names is not modelled.
