/** The records exchanged between the workbook and the content directory, and the fixed layout
    of an edit worksheet. */
module Data {
  import opened Common

  // ----- worksheet layout (1-based rows and columns) -----

  /** The sheet identifier cell: row 1, column 2. */
  const SheetNameRow: int := 1
  const SheetNameColumn: int := 2

  const DescriptionColumn: int := 2
  const EnumNameColumn: int := 3
  const TextStartColumn: int := 4

  /** The header row whose cells name the language columns. */
  const TextTypeStartRow: int := 2

  /** The first row holding a record. */
  const RecordStartRow: int := 3

  // ----- file names -----

  const IndexFileExtension: string := ".index"
  const JsonFileExtension: string := ".json"
  const YamlFileExtension: string := ".yaml"
  const ExcelExtension: string := ".xlsx"

  // ----- stored records -----

  /** The order in which sheets are laid out in the edit workbook. */
  datatype IndexData = IndexData(sheetNames: seq<string>)

  /** One language column of a record. */
  datatype ContentData = ContentData(
    text: NString,
    comment: NString,
    fontColor: NString,
    backgroundColor: NString)

  datatype RecordData = RecordData(
    enumName: NString,
    description: NString,
    guid: NString,
    contents: Option<seq<ContentData>>)

  datatype SheetData = SheetData(
    sheetName: NString,
    displayName: NString,
    guid: NString,
    records: Option<seq<RecordData>>)
}
