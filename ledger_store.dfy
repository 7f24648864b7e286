/** The ledger as the application keeps it: one user's profile counters and records,
    updated in place by the dashboard, the edit dialog, the adjustment dialog and the
    profile page. Every write is assumed to succeed. */
module LedgerStore {
  import opened Records
  import opened DayCount
  import opened JobLevels
  import LedgerSpec

  class Ledger {
    var name: string
    var email: string
    var jobLevel: string
    var isManager: bool
    var totalDays: real
    var usedDays: real
    var availableDays: real
    var entries: seq<Entry>
    var adjustments: seq<Adjustment>

    /** The ledger's whole state as a value. */
    function State(): LedgerSpec.State
      reads this
    {
      LedgerSpec.State(name, email, jobLevel, isManager, totalDays, usedDays, availableDays,
                       entries, adjustments)
    }

    /** The profile written at sign-up for a job level worth `days`. */
    constructor SignUpInit(name: string, email: string, jobLevel: string, isManager: bool, days: nat)
      ensures State() == LedgerSpec.NewProfile(name, email, jobLevel, isManager, days)
      ensures LedgerSpec.Consistent(State())
    {
      this.name := name;
      this.email := email;
      this.jobLevel := jobLevel;
      this.totalDays := days as real;
      this.usedDays := 0.0;
      this.availableDays := days as real;
      this.isManager := isManager;
      this.entries := [];
      this.adjustments := [];
      new;
      LedgerSpec.NewProfileConsistent(name, email, jobLevel, isManager, days);
    }

    /** Submitting the time-off form: validate, move the day count from available to used,
        then log the entry. */
    method Request(start: Option<Day>, end: Option<Day>, reason: string, kind: string)
      returns (err: Option<LedgerError>)
      modifies this
      ensures LedgerSpec.Request(old(State()), start, end, reason, kind)
           == if err.None? then LedgerSpec.Done(State()) else LedgerSpec.Rejected(err.value)
      ensures err.Some? ==> State() == old(State())
    {
      if start.None? || end.None? || reason == "" {
        return Some(MissingFields);
      }
      if end.value < start.value {
        return Some(EndBeforeStart);
      }
      var days := CalculateDays(start, end);
      availableDays := availableDays - days as real;
      usedDays := usedDays + days as real;
      entries := entries + [Entry(start.value, end.value, days, reason, kind)];
      return None;
    }

    /** Confirming the deletion of the selected entry, if one is selected: give its days
        back, then remove it. */
    method Cancel(selected: Option<nat>)
      requires selected.Some? ==> selected.value < |entries|
      modifies this
      ensures State() == LedgerSpec.Cancel(old(State()), selected)
    {
      if selected.None? {
        return;
      }
      var i := selected.value;
      var entry := entries[i];
      availableDays := availableDays + entry.days as real;
      usedDays := usedDays - entry.days as real;
      entries := entries[..i] + entries[i + 1..];
    }

    /** Submitting the edit dialog for entry `i`: validate, overwrite the entry with the
        recounted days, then shift both counters by the difference. */
    method Edit(i: nat, start: Option<Day>, end: Option<Day>, reason: string, kind: string)
      returns (err: Option<LedgerError>)
      requires i < |entries|
      modifies this
      ensures LedgerSpec.Edit(old(State()), i, start, end, reason, kind)
           == if err.None? then LedgerSpec.Done(State()) else LedgerSpec.Rejected(err.value)
      ensures err.Some? ==> State() == old(State())
    {
      if start.None? || end.None? || reason == "" {
        return Some(MissingFields);
      }
      if end.value < start.value {
        return Some(EndBeforeStart);
      }
      var newDays := CalculateDays(start, end);
      var daysDifference := newDays - entries[i].days;
      entries := entries[i := Entry(start.value, end.value, newDays, reason, kind)];
      availableDays := availableDays - daysDifference as real;
      usedDays := usedDays + daysDifference as real;
      return None;
    }

    /** Submitting the adjustment dialog: validate the amount, move `availableDays` by the
        signed amount, then log the adjustment with the signed amount. */
    method Adjust(field: AmountField, op: Operation, kind: string, reason: string)
      returns (err: Option<LedgerError>)
      modifies this
      ensures LedgerSpec.Adjust(old(State()), field, op, kind, reason)
           == if err.None? then LedgerSpec.Done(State()) else LedgerSpec.Rejected(err.value)
      ensures err.Some? ==> State() == old(State())
    {
      if field.Blank? {
        return Some(MissingFields);
      }
      var daysNum := field.parsed;
      if daysNum.None? || daysNum.value <= 0.0 {
        return Some(InvalidAmount);
      }
      var adjustment := LedgerSpec.Signed(daysNum.value, op);
      availableDays := availableDays + adjustment;
      adjustments := adjustments + [Adjustment(adjustment, op.Label(), kind, reason)];
      return None;
    }

    /** The profile page's job-level update: look the title up and overwrite `jobLevel`
        and `totalDays`; an unknown title fails before the write. */
    method SetJobLevel(title: string) returns (err: Option<LedgerError>)
      modifies this
      ensures LedgerSpec.SetJobLevel(old(State()), title)
           == if err.None? then LedgerSpec.Done(State()) else LedgerSpec.Rejected(err.value)
      ensures err.Some? ==> State() == old(State())
    {
      var selectedLevel := Find(ProfileLevels, title);
      if selectedLevel.None? {
        return Some(UnknownJobLevel);
      }
      jobLevel := title;
      totalDays := selectedLevel.value.days as real;
      return None;
    }
  }
}
