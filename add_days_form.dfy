/** The adjustment dialog: its four form fields, its submit and its close. */
module AddDays {
  import opened Records
  import LedgerSpec
  import opened LedgerStore

  const DefaultKind := "bonus"

  class AddDaysForm {
    var days: AmountField
    var reason: string
    var kind: string
    var operation: Operation

    /** The fields as the dialog starts and as closing leaves them. */
    predicate IsReset()
      reads this
    {
      days == Blank && reason == "" && kind == DefaultKind && operation == Add
    }

    constructor ()
      ensures IsReset()
    {
      days := Blank;
      reason := "";
      kind := DefaultKind;
      operation := Add;
    }

    /** Closing the dialog clears the form. */
    method Close()
      modifies this
      ensures IsReset()
    {
      days := Blank;
      reason := "";
      kind := DefaultKind;
      operation := Add;
    }

    /** Submitting the dialog: the ledger takes the adjustment (or refuses it, changing
        nothing); on success the dialog closes and the form is cleared, on refusal the
        form keeps what was typed. */
    method Submit(ledger: Ledger) returns (err: Option<LedgerError>)
      modifies this, ledger
      ensures LedgerSpec.Adjust(old(ledger.State()), old(days), old(operation), old(kind), old(reason))
           == if err.None? then LedgerSpec.Done(ledger.State()) else LedgerSpec.Rejected(err.value)
      ensures err.None? ==> IsReset()
      ensures err.Some? ==> unchanged(this) && ledger.State() == old(ledger.State())
    {
      err := ledger.Adjust(days, operation, kind, reason);
      if err.None? {
        Close();
      }
    }
  }
}
