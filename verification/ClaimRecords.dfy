/** Rows of an exception claim as the admin screens read them: untyped JSON cells
    behind `stringField` and `integerId`. */
module ClaimRecords {
  import opened Basics

  /** One property of a JSON row. */
  datatype Cell = Absent | Number(n: int) | Text(text: string) | OtherJson

  /** A text cell that is not blank; anything else reads as missing. */
  function StringField(cell: Cell): Option<string> {
    if cell.Text? && !IsBlank(cell.text) then Some(cell.text) else None
  }

  function OptionalDigitId(raw: string): Option<int> {
    var trimmed := Trim(raw);
    if trimmed != "" && AllDigits(trimmed) then Some(Decimal(trimmed)) else None
  }

  function IntegerId(cell: Cell): Option<int> {
    match cell
    case Number(n) => if n > 0 then Some(n) else None
    case Text(text) => OptionalDigitId(text)
    case _ => None
  }

  datatype Allocation = Allocation(partyType: Cell, partyUserId: Cell, partyMerchantId: Cell)

  datatype Determination = Determination(
    id: Cell,
    adjustmentOfDeterminationId: Cell,
    status: Cell,
    exceptionClaimId: Cell,
    remainingAmountSnapshot: Cell,
    allocations: seq<Allocation>)

  function Parent(row: Determination): Option<string> {
    StringField(row.adjustmentOfDeterminationId)
  }

  function Status(row: Determination): Option<string> {
    StringField(row.status)
  }

  predicate HasId(row: Determination) {
    StringField(row.id).Some?
  }

  /** The id of a row that has one. */
  function RowId(row: Determination): string {
    match StringField(row.id)
    case Some(id) => id
    case None => ""
  }

  const DRAFT := "DRAFT"
  const PROPOSED := "PROPOSED"
  const FINALIZED := "FINALIZED"

  // ------------------------------------------------------- what cells say

  /** The cell is this text, and the text does not trim to nothing. */
  predicate Says(cell: Cell, text: string) {
    cell == Text(text) && Trim(text) != ""
  }

  /** The cell is this positive number, or a text that trims to its digits. */
  predicate SaysId(cell: Cell, n: int) {
    match cell
    case Number(m) => m == n && n > 0
    case Text(text) => Trim(text) != "" && AllDigits(Trim(text)) && Decimal(Trim(text)) == n
    case _ => false
  }

  lemma CellsAreRead(cell: Cell, text: string, n: int)
    ensures StringField(cell) == Some(text) <==> Says(cell, text)
    ensures StringField(cell).None? <==> !(cell.Text? && Trim(cell.text) != "")
    ensures IntegerId(cell) == Some(n) <==> SaysId(cell, n)
  {
    TrimOfBlank(text);
    if cell.Text? {
      TrimOfBlank(cell.text);
    }
  }
}
