/** The leave-balance ledger of one user as a value: the counters of the user's profile,
    the user's time-off entries and the user's days-adjustment log, with every operation
    of the ledger as a function from the old state to the new one. The class in
    `LedgerStore` performs the same operations in place and is proved against these. */
module LedgerSpec {
  import opened Records
  import opened DayCount
  import opened AdjustmentLog
  import opened JobLevels

  /** A user profile (its `users` document) together with that user's records. */
  datatype State = State(
    name: string,
    email: string,
    jobLevel: string,
    isManager: bool,
    totalDays: real,
    usedDays: real,
    availableDays: real,
    entries: seq<Entry>,
    adjustments: seq<Adjustment>)

  /** The outcome of an operation that validates its input first. */
  datatype Step = Done(next: State) | Rejected(error: LedgerError)

  /** Sum of the day counts of a list of time-off entries. */
  function UsedTotal(entries: seq<Entry>): real
  {
    if entries == [] then 0.0 else entries[0].days as real + UsedTotal(entries[1..])
  }

  /** Balance invariant: what is available is the allocation, less what was used, plus
      what the adjustment log nets to. */
  predicate Balanced(s: State)
  {
    s.availableDays == s.totalDays - s.usedDays + NetAdjustments(s.adjustments)
  }

  /** Usage invariant: the used-days counter is the sum of the active entries. */
  predicate UsageTracked(s: State)
  {
    s.usedDays == UsedTotal(s.entries)
  }

  predicate Consistent(s: State)
  {
    Balanced(s) && UsageTracked(s)
  }

  // ---------------------------------------------------------------------------------
  // Operations

  /** The profile written at sign-up for a job level worth `days`. */
  function NewProfile(name: string, email: string, jobLevel: string, isManager: bool, days: nat): State
  {
    State(name, email, jobLevel, isManager, days as real, 0.0, days as real, [], [])
  }

  /** The checks that a time-off request and a time-off edit make before any write. */
  function CheckSpan(start: Option<Day>, end: Option<Day>, reason: string): Option<LedgerError>
  {
    if start.None? || end.None? || reason == "" then Some(MissingFields)
    else if end.value < start.value then Some(EndBeforeStart)
    else None
  }

  /** Requesting time off: take the span's day count off `availableDays`, add it to
      `usedDays`, append the entry. */
  function Request(s: State, start: Option<Day>, end: Option<Day>, reason: string, kind: string): Step
  {
    var check := CheckSpan(start, end, reason);
    if check.Some? then Rejected(check.value)
    else
      var days := CalculateDays(start, end);
      Done(s.(availableDays := s.availableDays - days as real,
              usedDays := s.usedDays + days as real,
              entries := s.entries + [Entry(start.value, end.value, days, reason, kind)]))
  }

  /** Cancelling the selected entry (by its position in the list), if any: give its days
      back and remove it. */
  function Cancel(s: State, selected: Option<nat>): State
    requires selected.Some? ==> selected.value < |s.entries|
  {
    if selected.None? then s
    else
      var i := selected.value;
      var days := s.entries[i].days;
      s.(availableDays := s.availableDays + days as real,
         usedDays := s.usedDays - days as real,
         entries := s.entries[..i] + s.entries[i + 1..])
  }

  /** Editing entry `i`: recount its days, overwrite its fields, and move both counters by
      the difference between the new and the stored day count. */
  function Edit(s: State, i: nat, start: Option<Day>, end: Option<Day>, reason: string, kind: string): Step
    requires i < |s.entries|
  {
    var check := CheckSpan(start, end, reason);
    if check.Some? then Rejected(check.value)
    else
      var newDays := CalculateDays(start, end);
      var delta := newDays - s.entries[i].days;
      Done(s.(entries := s.entries[i := Entry(start.value, end.value, newDays, reason, kind)],
              availableDays := s.availableDays - delta as real,
              usedDays := s.usedDays + delta as real))
  }

  /** The amount of an adjustment form, once validated: blank and non-positive or NaN
      amounts are refused. */
  function CheckAmount(field: AmountField): (r: Option<LedgerError>)
  {
    match field
    case Blank => Some(MissingFields)
    case Entered(None) => Some(InvalidAmount)
    case Entered(Some(x)) => if x <= 0.0 then Some(InvalidAmount) else None
  }

  /** The amount with the sign the operation gives it. */
  function Signed(amount: real, op: Operation): real
  {
    if op == Add then amount else -amount
  }

  /** Adjusting the balance: move `availableDays` by the signed amount and log it. */
  function Adjust(s: State, field: AmountField, op: Operation, kind: string, reason: string): Step
  {
    var check := CheckAmount(field);
    if check.Some? then Rejected(check.value)
    else
      var adjustment := Signed(field.parsed.value, op);
      Done(s.(availableDays := s.availableDays + adjustment,
              adjustments := s.adjustments + [Adjustment(adjustment, op.Label(), kind, reason)]))
  }

  /** Changing the job level on the profile page: store the title and reset `totalDays`
      from the table; an unknown title writes nothing. */
  function SetJobLevel(s: State, title: string): Step
  {
    var level := Find(ProfileLevels, title);
    if level.None? then Rejected(UnknownJobLevel)
    else Done(s.(jobLevel := title, totalDays := level.value.days as real))
  }

  // ---------------------------------------------------------------------------------
  // Sums over the entry list

  lemma {:induction false} UsedTotalAppend(entries: seq<Entry>, e: Entry)
    ensures UsedTotal(entries + [e]) == UsedTotal(entries) + e.days as real
  {
    if entries != [] {
      assert (entries + [e])[1..] == entries[1..] + [e];
      UsedTotalAppend(entries[1..], e);
    }
  }

  lemma {:induction false} UsedTotalRemove(entries: seq<Entry>, i: nat)
    requires i < |entries|
    ensures UsedTotal(entries[..i] + entries[i + 1..]) == UsedTotal(entries) - entries[i].days as real
  {
    if i == 0 {
      assert entries[..0] + entries[1..] == entries[1..];
    } else {
      var tail := entries[1..];
      assert entries[..i] + entries[i + 1..] == [entries[0]] + (tail[..i - 1] + tail[i..]);
      UsedTotalRemove(tail, i - 1);
    }
  }

  lemma {:induction false} UsedTotalUpdate(entries: seq<Entry>, i: nat, e: Entry)
    requires i < |entries|
    ensures UsedTotal(entries[i := e]) == UsedTotal(entries) - entries[i].days as real + e.days as real
  {
    if i > 0 {
      assert entries[i := e][1..] == entries[1..][i - 1 := e];
      UsedTotalUpdate(entries[1..], i - 1, e);
    }
  }

  // ---------------------------------------------------------------------------------
  // Properties of the operations

  /** A new profile starts with the level's days both as total and as available, nothing
      used and no records, which establishes both invariants. */
  lemma NewProfileConsistent(name: string, email: string, jobLevel: string, isManager: bool, days: nat)
    ensures var s := NewProfile(name, email, jobLevel, isManager, days);
      && Consistent(s)
      && s.totalDays == s.availableDays == days as real
      && s.usedDays == 0.0
      && s.isManager == isManager && s.jobLevel == jobLevel
      && s.name == name && s.email == email
      && s.entries == [] && s.adjustments == []
  {
  }

  /** The shared checks refuse exactly a missing date, an empty reason (reported as missing
      fields) or, with every field present, an end date before the start date (reported as
      such); what they let through has a day count of end - start + 1. */
  lemma CheckSpanAccepts(start: Option<Day>, end: Option<Day>, reason: string)
    ensures CheckSpan(start, end, reason).None?
        <==> start.Some? && end.Some? && reason != "" && start.value <= end.value
    ensures CheckSpan(start, end, reason) == Some(MissingFields)
        <==> start.None? || end.None? || reason == ""
    ensures CheckSpan(start, end, reason) == Some(EndBeforeStart)
        <==> start.Some? && end.Some? && reason != "" && end.value < start.value
    ensures CheckSpan(start, end, reason).None? ==>
              CalculateDays(start, end) == end.value - start.value + 1
  {
  }

  /** A rejected request changes nothing; an accepted one moves exactly its day count from
      available to used, logs an entry holding that same count, and keeps both invariants. */
  lemma RequestEffect(s: State, start: Option<Day>, end: Option<Day>, reason: string, kind: string)
    ensures Request(s, start, end, reason, kind).Rejected?
        <==> CheckSpan(start, end, reason).Some?
    ensures Request(s, start, end, reason, kind).Rejected? ==>
              Request(s, start, end, reason, kind).error == CheckSpan(start, end, reason).value
    ensures Request(s, start, end, reason, kind).Done? ==>
      var t := Request(s, start, end, reason, kind).next;
      var e := t.entries[|t.entries| - 1];
      && t.entries == s.entries + [e]
      && e == Entry(start.value, end.value, e.days, reason, kind)
      && e.days == CalculateDays(start, end) >= 1
      && t.usedDays == s.usedDays + e.days as real
      && t.availableDays + t.usedDays == s.availableDays + s.usedDays
      && t.totalDays == s.totalDays && t.adjustments == s.adjustments
      && t == s.(availableDays := t.availableDays, usedDays := t.usedDays, entries := t.entries)
      && (Balanced(s) ==> Balanced(t))
      && (UsageTracked(s) ==> UsageTracked(t))
  {
    var r := Request(s, start, end, reason, kind);
    if r.Done? {
      UsedTotalAppend(s.entries, r.next.entries[|r.next.entries| - 1]);
    }
  }

  /** Cancelling with nothing selected changes nothing; cancelling entry `i` gives back
      exactly its days, removes only that entry, and keeps each invariant on its own. */
  lemma CancelEffect(s: State, selected: Option<nat>)
    requires selected.Some? ==> selected.value < |s.entries|
    ensures selected.None? ==> Cancel(s, selected) == s
    ensures selected.Some? ==>
      var t, i := Cancel(s, selected), selected.value;
      && t.entries == s.entries[..i] + s.entries[i + 1..]
      && t.availableDays == s.availableDays + s.entries[i].days as real
      && t.usedDays == s.usedDays - s.entries[i].days as real
      && t.totalDays == s.totalDays && t.adjustments == s.adjustments
      && t == s.(availableDays := t.availableDays, usedDays := t.usedDays, entries := t.entries)
    ensures Balanced(s) ==> Balanced(Cancel(s, selected))
    ensures UsageTracked(s) ==> UsageTracked(Cancel(s, selected))
  {
    if selected.Some? {
      UsedTotalRemove(s.entries, selected.value);
    }
  }

  /** Cancelling the entry a request just appended restores the state exactly. */
  lemma RequestThenCancel(s: State, start: Option<Day>, end: Option<Day>, reason: string, kind: string)
    requires Request(s, start, end, reason, kind).Done?
    ensures var t := Request(s, start, end, reason, kind).next;
      |s.entries| < |t.entries| && Cancel(t, Some(|s.entries|)) == s
  {
    var t := Request(s, start, end, reason, kind).next;
    var n := |s.entries|;
    assert t.entries[..n] + t.entries[n + 1..] == s.entries;
  }

  /** A rejected edit changes nothing. An accepted edit stores the recounted days in the
      entry, moves both counters by the difference from the stored count (so their sum is
      unchanged, and an edit to a span of the same length leaves them alone), touches no
      other entry, and keeps both invariants. */
  lemma EditEffect(s: State, i: nat, start: Option<Day>, end: Option<Day>, reason: string, kind: string)
    requires i < |s.entries|
    ensures Edit(s, i, start, end, reason, kind).Rejected?
        <==> CheckSpan(start, end, reason).Some?
    ensures Edit(s, i, start, end, reason, kind).Rejected? ==>
              Edit(s, i, start, end, reason, kind).error == CheckSpan(start, end, reason).value
    ensures Edit(s, i, start, end, reason, kind).Done? ==>
      var t := Edit(s, i, start, end, reason, kind).next;
      var newDays := CalculateDays(start, end);
      var delta := (newDays - s.entries[i].days) as real;
      && |t.entries| == |s.entries|
      && t.entries[i] == Entry(start.value, end.value, newDays, reason, kind)
      && (forall j :: 0 <= j < |s.entries| && j != i ==> t.entries[j] == s.entries[j])
      && t.usedDays == s.usedDays + delta
      && t.availableDays == s.availableDays - delta
      && t.availableDays + t.usedDays == s.availableDays + s.usedDays
      && (newDays == s.entries[i].days ==> t.usedDays == s.usedDays && t.availableDays == s.availableDays)
      && t.totalDays == s.totalDays && t.adjustments == s.adjustments
      && t == s.(availableDays := t.availableDays, usedDays := t.usedDays, entries := t.entries)
      && (Balanced(s) ==> Balanced(t))
      && (UsageTracked(s) ==> UsageTracked(t))
  {
    var r := Edit(s, i, start, end, reason, kind);
    if r.Done? {
      UsedTotalUpdate(s.entries, i, r.next.entries[i]);
    }
  }

  /** Worked example: a three-day entry edited to five days uses two more days; edited to
      one day it gives two back. */
  lemma EditExample(s: State, i: nat, from: Day)
    requires i < |s.entries| && s.entries[i].days == 3
    ensures var t := Edit(s, i, Some(from), Some(from + 4), "trip", "vacation");
      t.Done? && t.next.usedDays == s.usedDays + 2.0 && t.next.availableDays == s.availableDays - 2.0
    ensures var t := Edit(s, i, Some(from), Some(from), "trip", "vacation");
      t.Done? && t.next.usedDays == s.usedDays - 2.0 && t.next.availableDays == s.availableDays + 2.0
  {
  }

  /** Rejected adjustments change nothing: a blank amount is a missing field, NaN or an
      amount at or below zero is an invalid amount. Any positive amount, fractional ones
      included, is accepted. */
  lemma AdjustChecks(s: State, field: AmountField, op: Operation, kind: string, reason: string)
    ensures field == Blank ==> Adjust(s, field, op, kind, reason) == Rejected(MissingFields)
    ensures field == Entered(None) ==> Adjust(s, field, op, kind, reason) == Rejected(InvalidAmount)
    ensures field.Entered? && field.parsed.Some? ==>
              (Adjust(s, field, op, kind, reason).Done? <==> field.parsed.value > 0.0)
    ensures field.Entered? && field.parsed.Some? && field.parsed.value <= 0.0 ==>
              Adjust(s, field, op, kind, reason) == Rejected(InvalidAmount)
  {
  }

  /** An accepted adjustment changes only `availableDays`, by the signed amount (positive
      for add, negative for subtract), logs that signed amount with the operation's label,
      moves the net of the log by the same amount, and so keeps both invariants. */
  lemma AdjustEffect(s: State, field: AmountField, op: Operation, kind: string, reason: string)
    ensures Adjust(s, field, op, kind, reason).Done? ==>
      var t := Adjust(s, field, op, kind, reason).next;
      var amount := field.parsed.value;
      var signed := Signed(amount, op);
      && t.availableDays == s.availableDays + signed
      && t.usedDays == s.usedDays && t.totalDays == s.totalDays && t.entries == s.entries
      && t.jobLevel == s.jobLevel
      && t == s.(availableDays := t.availableDays, adjustments := t.adjustments)
      && t.adjustments == s.adjustments + [Adjustment(signed, op.Label(), kind, reason)]
      && NetAdjustments(t.adjustments) == NetAdjustments(s.adjustments) + signed
      && (Balanced(s) ==> Balanced(t))
      && (UsageTracked(s) ==> UsageTracked(t))
  {
    var r := Adjust(s, field, op, kind, reason);
    if r.Done? {
      NetAdjustmentsAppend(s.adjustments, r.next.adjustments[|s.adjustments|]);
      assert r.next.adjustments == s.adjustments + [r.next.adjustments[|s.adjustments|]];
    }
  }

  /** Worked example: subtracting 1.5 days takes 1.5 off `availableDays` and logs -1.5. */
  lemma AdjustExample(s: State)
    ensures var t := Adjust(s, Entered(Some(1.5)), Subtract, "other", "correction");
      && t.Done?
      && t.next.availableDays == s.availableDays - 1.5
      && t.next.adjustments[|s.adjustments|] == Adjustment(-1.5, SubtractLabel, "other", "correction")
  {
  }

  /** Changing the job level writes only the title and the table's days as total, leaves
      the counters and the records alone, and refuses a title the table lacks. It keeps the
      balance invariant exactly when the level's days equal the old total. Applying the
      same level twice is the same as applying it once. */
  lemma SetJobLevelEffect(s: State, title: string)
    ensures SetJobLevel(s, title).Rejected? <==> Find(ProfileLevels, title).None?
    ensures SetJobLevel(s, title).Done? ==>
      var t := SetJobLevel(s, title).next;
      && t.jobLevel == title
      && t.totalDays == Find(ProfileLevels, title).value.days as real
      && t.availableDays == s.availableDays && t.usedDays == s.usedDays
      && t.entries == s.entries && t.adjustments == s.adjustments
      && t == s.(jobLevel := title, totalDays := t.totalDays)
      && (UsageTracked(s) ==> UsageTracked(t))
      && (Balanced(s) ==> (Balanced(t) <==> t.totalDays == s.totalDays))
      && SetJobLevel(t, title) == SetJobLevel(s, title)
  {
  }

  /** The job-level change does not keep the balance invariant: an Associate (20 days)
      promoted to Managing Director (30 days) keeps 20 available days against a total of
      30 with nothing used and nothing adjusted. */
  lemma SetJobLevelBreaksBalance()
    ensures var s := NewProfile("Ann", "ann@example.com", "Associate", false, 20);
      && Consistent(s)
      && SetJobLevel(s, "Managing Director").Done?
      && !Balanced(SetJobLevel(s, "Managing Director").next)
  {
    FindExamples();
    var s := NewProfile("Ann", "ann@example.com", "Associate", false, 20);
    var t := SetJobLevel(s, "Managing Director").next;
    assert t.totalDays == 30.0 && t.availableDays == 20.0 && t.usedDays == 0.0;
    assert t.adjustments == [];
  }
}
