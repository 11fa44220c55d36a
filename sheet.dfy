/** The spreadsheet side as the reconciliation sees it: one fetched row
    (`RowModel`), the cell payloads and the grouped writes that are sent back.
    The remote adapter itself (batch reads and writes) is not part of this
    model; its reads are inputs and its writes are returned values. */
module Sheet {
  import opened Models

  /** The FILL_IN value that marks a row for writing (`CheckType.RUN`). */
  const Run: string := "RUN"

  /** The status note of a row. The timestamp prefix the program puts in front
      of both messages is wall-clock text and is not modelled. */
  datatype Note =
    | Text(text: string)            // whatever the sheet held before
    | Updated                       // "... Cập nhật thành công"
    | ProductNotFound(codeId: int)  // "... Không tìm thấy product với CODE_ID: <code>"

  /** The value of every field of a row that the reconciliation reads or
      writes. An empty cell (Python `None` or `""`) is the empty string. */
  datatype RowState = RowState(
    codeId: int,
    fillIn: string,
    product: string,
    regions: string,
    price: string,
    currency: string,
    note: Note,
    idSheet: string,
    sheet: string,
    cell: string)

  /** One fetched row, updated in place by the batch and then written back. */
  class Row {
    var codeId: int
    var fillIn: string
    var product: string
    var regions: string
    var price: string
    var currency: string
    var note: Note
    var idSheet: string
    var sheet: string
    var cell: string

    /** The adapter building a `RowModel` from the cells of one fetched row. */
    constructor (s: RowState)
      ensures State() == s
    {
      codeId, fillIn, product, regions, price := s.codeId, s.fillIn, s.product, s.regions, s.price;
      currency, note, idSheet, sheet, cell := s.currency, s.note, s.idSheet, s.sheet, s.cell;
    }

    function State(): RowState
      reads this
    {
      RowState(codeId, fillIn, product, regions, price, currency, note, idSheet, sheet, cell)
    }
  }

  /** The field values of a list of rows, position by position. */
  function States(rows: seq<Row>): seq<RowState>
    reads rows
  {
    seq(|rows|, i requires 0 <= i < |rows| reads rows => rows[i].State())
  }

  /** `BatchCellUpdatePayload`: one value for one cell. */
  datatype Payload = Payload(cell: string, value: string)

  /** One `free_style_batch_update` call: the payloads for one tab of one
      spreadsheet. */
  datatype SheetWrite = SheetWrite(sheetId: string, sheetName: string, payloads: seq<Payload>)
}
