/** The decoded workbook the parser reads: sheet names, and per sheet the
    row-major cell grid plus the addressable cell records (`"B21"`, ...).
    Decoding the file itself belongs to the spreadsheet library and is not
    part of this model. */
module Workbooks {
  import opened Values

  /** A cell record addressed by reference: its raw value `v` (absent when
      `undefined`) and its formatted text `w`. */
  datatype CellRecord = CellRecord(v: Option<Cell>, w: Option<string>)

  /** A sheet: the rows as the library's array-of-arrays export gives them
      (blank cells are `Empty`), and the cell records by reference. */
  datatype Sheet = Sheet(rows: seq<seq<Cell>>, cells: map<string, CellRecord>)

  /** `workbook.SheetNames` and `workbook.Sheets`. */
  datatype Workbook = Workbook(sheetNames: seq<string>, sheets: map<string, Sheet>)

  /** What the spreadsheet library guarantees: the listed names are exactly
      the sheets that can be looked up. */
  ghost predicate Consistent(wb: Workbook) {
    forall name :: name in wb.sheets <==> name in wb.sheetNames
  }

  /** `row[k]`; reading past the end of a row gives `undefined`. */
  function CellAt(row: seq<Cell>, k: nat): Cell {
    if k < |row| then row[k] else Empty
  }

  /** `getCellValue(sheet, ref)` on a sheet that exists: no record gives
      `null`; otherwise the raw value, or the formatted text when there is
      no raw value. */
  function GetCellValue(sheet: Sheet, ref: string): (r: Cell)
    ensures ref !in sheet.cells ==> r == Empty
    ensures ref in sheet.cells && sheet.cells[ref].v.Some? ==> r == sheet.cells[ref].v.value
    ensures ref in sheet.cells && sheet.cells[ref].v.None? && sheet.cells[ref].w.Some? ==>
              r == Str(sheet.cells[ref].w.value)
    ensures ref in sheet.cells && sheet.cells[ref].v.None? && sheet.cells[ref].w.None? ==> r == Empty
  {
    if ref !in sheet.cells then Empty
    else
      var record := sheet.cells[ref];
      match record.v
      case Some(value) => value
      case None => if record.w.Some? then Str(record.w.value) else Empty
  }

  /** Why one step of the parse throws. */
  datatype Fault =
    | SheetNotFound(sheet: string)
      /** `getCellValue` reading I3 of an absent trim sheet */
    | SelectorSheetMissing
      /** `overallStatus.includes` called on a number */
    | VerdictNotText

  /** The two TypeErrors, in the wording of the V8 engine. */
  const SelectorMissingMessage := "Cannot read properties of undefined (reading 'I3')"
  const VerdictNotTextMessage := "overallStatus.includes is not a function"

  /** The message of the error each fault throws. */
  function FaultMessage(f: Fault): (m: string)
    ensures f.SheetNotFound? ==> m == f.sheet + " sheet not found"
    ensures m != ""
  {
    match f
    case SheetNotFound(sheet) => sheet + " sheet not found"
    case SelectorSheetMissing => SelectorMissingMessage
    case VerdictNotText => VerdictNotTextMessage
  }
}
