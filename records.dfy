/** The records the leave ledger keeps and the values its forms hand to it. */
module Records {

  datatype Option<+T> = None | Some(value: T)

  /** A calendar date as a whole-day ordinal (days since some fixed epoch). */
  type Day = int

  /** A time-off entry of the `timeOffEntries` collection. */
  datatype Entry = Entry(startDate: Day, endDate: Day, days: int, reason: string, kind: string)

  /** A days-adjustment of the `daysAdjustments` collection: `days` is the signed amount
      as stored, `operation` the label stored beside it. */
  datatype Adjustment = Adjustment(days: real, operation: string, kind: string, reason: string)

  const AddLabel := "add"
  const SubtractLabel := "subtract"

  /** The add/subtract toggle of the adjustment form. */
  datatype Operation = Add | Subtract {
    /** The label stored with the logged adjustment. */
    function Label(): (s: string)
      ensures s == AddLabel <==> Add?
      ensures s == SubtractLabel <==> Subtract?
    {
      assert |AddLabel| != |SubtractLabel|;
      if Add? then AddLabel else SubtractLabel
    }
  }

  /** The amount field of the adjustment form after `parseFloat`: left blank, or filled
      with text that parses to a number (`Some`) or to NaN (`None`). */
  datatype AmountField = Blank | Entered(parsed: Option<real>)

  /** The validation errors the forms report before any write. */
  datatype LedgerError =
    | MissingFields      // a required field is empty
    | EndBeforeStart     // the end date precedes the start date
    | InvalidAmount      // the amount is NaN or not positive
    | UnknownJobLevel    // the title is not in the job-level table

  /** Real absolute value, `Math.abs` on a number. */
  function Abs(x: real): (r: real)
    ensures r >= 0.0
    ensures r == x || r == -x
  {
    if x < 0.0 then -x else x
  }
}
